/** The dataset listings `download_complete` writes into the results tab:
    in preview mode the first ten datasets with titles cut at 80 characters
    and a count of the rest; after a download the first five with titles
    cut at 60 characters. Only the listed facts are modelled, not the text. */
module Listing {
  import opened Wrappers

  /** A dataset record from the search client; `resources` and `type` may be missing. */
  datatype Dataset = Dataset(title: string, resources: Option<seq<string>>, kind: Option<string>)

  /** One listed dataset: its 1-based number, shown title, resource count and type. */
  datatype Entry = Entry(number: nat, title: string, resources: nat, kind: string)

  const PreviewCap: nat := 10
  const PreviewTitleLimit: nat := 80
  const SampleCap: nat := 5
  const SampleTitleLimit: nat := 60
  const Ellipsis := "..."

  function Min(a: nat, b: nat): nat
  {
    if a <= b then a else b
  }

  /** `title[:limit] + "..." if len(title) > limit else title`. */
  function Truncate(title: string, limit: nat): (shown: string)
    ensures |shown| <= limit + |Ellipsis|
    ensures |shown| >= Min(|title|, limit)
    ensures shown[..Min(|title|, limit)] == title[..Min(|title|, limit)]
    ensures |title| <= limit ==> shown == title
    ensures |title| > limit ==> |shown| == limit + |Ellipsis| && shown[limit..] == Ellipsis
  {
    if |title| > limit then title[..limit] + Ellipsis else title
  }

  /** `len(dataset.get('resources', []))`. */
  function ResourceCount(d: Dataset): nat
  {
    match d.resources
    case Some(rs) => |rs|
    case None => 0
  }

  /** `dataset.get('type', 'unknown')`. */
  function KindOf(d: Dataset): string
  {
    match d.kind
    case Some(k) => k
    case None => "unknown"
  }

  /** The entry for the dataset at 0-based position `i`. */
  function EntryOf(i: nat, d: Dataset, limit: nat): Entry
  {
    Entry(i + 1, Truncate(d.title, limit), ResourceCount(d), KindOf(d))
  }

  /** The `for i, dataset in enumerate(datasets[:cap], 1)` loop: one entry
      per dataset among the first `cap`, in order, numbered from 1. */
  method ListDatasets(datasets: seq<Dataset>, cap: nat, limit: nat) returns (entries: seq<Entry>)
    ensures |entries| == Min(|datasets|, cap)
    ensures forall i :: 0 <= i < |entries| ==> entries[i] == EntryOf(i, datasets[i], limit)
    ensures forall i :: 0 <= i < |entries| ==>
      entries[i].number == i + 1 && |entries[i].title| <= limit + |Ellipsis|
  {
    var shown := datasets[..Min(|datasets|, cap)];
    entries := [];
    for i := 0 to |shown|
      invariant |entries| == i
      invariant forall j :: 0 <= j < i ==> entries[j] == EntryOf(j, shown[j], limit)
    {
      entries := entries + [EntryOf(i, shown[i], limit)];
    }
  }

  /** The preview listing: at most ten entries, then "... and N more
      datasets" when there are more than ten. */
  method PreviewListing(datasets: seq<Dataset>) returns (entries: seq<Entry>, more: Option<nat>)
    ensures |entries| == Min(|datasets|, PreviewCap)
    ensures forall i :: 0 <= i < |entries| ==> entries[i] == EntryOf(i, datasets[i], PreviewTitleLimit)
    ensures more.Some? <==> |datasets| > PreviewCap
    ensures more.Some? ==> more.value > 0
    ensures |entries| + (if more.Some? then more.value else 0) == |datasets|
  {
    entries := ListDatasets(datasets, PreviewCap, PreviewTitleLimit);
    more := if |datasets| > PreviewCap then Some(|datasets| - PreviewCap) else None;
  }

  /** The sample listing after a download: up to five entries, and none when
      the reported total is zero. The download sample prints only the number,
      the title and the resource count of each entry; the `kind` its entries
      carry is never shown there. */
  method DownloadSample(totalDatasets: int, results: seq<Dataset>) returns (entries: seq<Entry>)
    ensures totalDatasets <= 0 ==> entries == []
    ensures totalDatasets > 0 ==> |entries| == Min(|results|, SampleCap)
    ensures forall i :: 0 <= i < |entries| ==>
      entries[i] == EntryOf(i, results[i], SampleTitleLimit) &&
      |entries[i].title| <= SampleTitleLimit + |Ellipsis|
  {
    entries := [];
    if totalDatasets > 0 {
      entries := ListDatasets(results, SampleCap, SampleTitleLimit);
    }
  }
}
