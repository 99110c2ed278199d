# GSQ polygon downloader: coordinate parser and search assembly in Dafny

This project models the logic inside the `GSQDownloaderGUI` class of the
Xenith GSQ polygon data downloader (`Matts_py_files/radj.py`), a tkinter
front-end that searches Geological Survey of Queensland datasets inside a
user-drawn polygon. The program's own logic is small:

- `parse_coordinates` turns the text of the coordinates box into a closed
  ring of (latitude, longitude) vertices inside the Queensland bounds
  (latitude -29 to -10, longitude 138 to 154, both ends included), or raises
  one of four kinds of `ValueError`;
- `convert_latlon_to_lonlat` swaps the axes of every vertex before the ring
  is handed to the search client;
- `download_worker` builds the search query (suggested terms, custom words
  or `*:*`) and the filter list (optional category filter, then
  `type:report`), and `update_summary` shows the same terms and the vertex
  count;
- `download_complete` lists the first ten datasets (titles cut at 80
  characters) of a preview, or the first five (cut at 60) of a download.

Modules:

- `Wrappers` (`wrappers.dfy`): `Option` and `Result`.
- `Text` (`text.dfy`): Python's `str.strip()`, `str.split(c)`, `str.split()`
  and `sep.join()`, with their inverse and characterising lemmas.
- `Coordinates` (`coordinates.dfy`): the parser, written both as the loop
  the source runs (`ParseCoordinates`) and as the specification function
  it is proved equal to (`ParsedPolygon`), the lemmas about that function,
  the axis swap and the summary's vertex count.
- `Query` (`query.dfy`): the data-type table, the query, the filters and
  the summary's search terms.
- `Listing` (`listing.dfy`): title truncation and the two listing loops.

Python's `float()` is a parameter `num: string -> Option<Float>` of the
parser. `Float` has NaN and the two infinities besides finite values, so
the chained bound checks reject them as Python does. Errors are tagged by
kind rather than by message: `NoCoordinates`, `InvalidFormat(line)` (the
comma check outside the `try`), `LineError(line, fault)` (anything raised
inside the `try` and re-raised as "Error parsing line") and
`TooFewCoordinates`.

The three-coordinate check counts entries, not distinct vertices, so the
lines A, B, A pass it with only two distinct vertices, and the summary then
reports "2 vertices". `Coordinates.DegenerateRingAccepted` states this
behaviour.

## Model

| member | source | states |
|---|---|---|
| `Text.TrimLeftSpec` | Matts_py_files/radj.py:425 | `lstrip` removes exactly the leading whitespace run: the rest is a suffix starting with a non-blank |
| `Text.TrimRightSpec` | Matts_py_files/radj.py:425 | `rstrip` removes exactly the trailing whitespace run: the rest is a prefix ending with a non-blank |
| `Text.StripEmptyIffAllSpace` | Matts_py_files/radj.py:419-421 | `strip()` (`Text.Strip`) gives the empty string exactly when the text is all whitespace |
| `Text.StripNotBlank` | Matts_py_files/radj.py:483-484 | a text that is not all whitespace strips to a text that starts and ends with a non-blank |
| `Text.CountZero` | Matts_py_files/radj.py:429 | a character occurs zero times exactly when it is not in the text |
| `Text.Split` | Matts_py_files/radj.py:433 | `split(c)` yields one more piece than there are separators, and no piece holds the separator |
| `Text.JoinSplit` | Matts_py_files/radj.py:424 | joining the pieces of `split(c)` with `c` gives back the text |
| `Text.SplitJoin` | Matts_py_files/radj.py:424 | splitting a join of separator-free parts gives back the parts |
| `Text.SplitWhitespace` | Matts_py_files/radj.py:567 | `split()` yields only non-empty tokens without whitespace; with `Word`'s contract, `SplitWhitespaceEmpty`, `SplitWhitespaceWord` and `SplitWhitespaceLeadingSpace` this fixes its result on every text |
| `Text.SplitWhitespaceEmpty` | Matts_py_files/radj.py:566-567 | `split()` is empty exactly when the text is all whitespace |
| `Text.SplitWhitespaceWord` | Matts_py_files/radj.py:567 | a word followed by whitespace or by nothing is the first token of `split()`, and splitting continues after it |
| `Text.SplitWhitespaceLeadingSpace` | Matts_py_files/radj.py:567 | `split()` skips a leading whitespace character of any kind, not only a space |
| `Text.SplitWhitespaceTwoWords` | Matts_py_files/radj.py:566-567 | two words separated by any single whitespace character (such as `gold<TAB>copper`) split into exactly those two words |
| `Text.SplitWhitespaceJoinOr` | Matts_py_files/radj.py:567 | words joined with `" OR "` split on whitespace into the same words with `OR` between each pair |
| `Coordinates.ParseFields` | Matts_py_files/radj.py:432-441 | the `try` block fails on a field count other than two, succeeds exactly when both stripped fields convert to in-bounds values, and then returns those values; otherwise its fault is the first one met in the source's order: latitude not a number, longitude not a number, latitude out of bounds (with its value), longitude out of bounds (with its value) |
| `Coordinates.ParseLine` | Matts_py_files/radj.py:429-445 | no comma is the format error; two or more commas is a parse error; every failure of a line with a comma is a line error naming that line and carrying the `try` block's fault; success needs exactly one comma and in-bounds values and yields an in-bounds coordinate |
| `Coordinates.LineFaultOfFields` | Matts_py_files/radj.py:429-445 | a line with a comma fails exactly when its `try` block fails, and then with a line error naming the line and carrying that block's fault |
| `Coordinates.Close` | Matts_py_files/radj.py:450-454 | the ring is closed and starts with the parsed coordinates |
| `Coordinates.CloseLength` | Matts_py_files/radj.py:450-454 | closing appends a vertex exactly when the ends differ, and closing twice is closing once |
| `Coordinates.PolygonIsClosedLines` | Matts_py_files/radj.py:443-454 | a parsed ring is the closure of the coordinates of its (at least three) lines |
| `Coordinates.ParseCoordinates` | Matts_py_files/radj.py:417-454 | the loop over the lines returns exactly `Coordinates.ParsedPolygon` of the text, the specification function whose properties the lemmas below state |
| `Coordinates.ParseLinesPrefixError` | Matts_py_files/radj.py:429-445 | an error raised on a line ends the whole loop with that error |
| `Coordinates.ParseLinesOk` | Matts_py_files/radj.py:424-443 | the loop succeeds exactly when every non-blank stripped line parses, and then yields one coordinate per such line, in order |
| `Coordinates.ParseLinesFirstError` | Matts_py_files/radj.py:424-445 | the first non-blank line that fails decides the loop's error |
| `Coordinates.ParseLinesErrorIsLineError` | Matts_py_files/radj.py:429-445 | the loop's errors are only format errors and re-raised line errors |
| `Coordinates.BlankTextHasNoLines` | Matts_py_files/radj.py:419-427 | a text that strips to nothing has no line to examine |
| `Coordinates.NoCoordinatesIffBlank` | Matts_py_files/radj.py:419-421 | "No coordinates entered" is raised exactly for empty or all-whitespace text |
| `Coordinates.PolygonOkIff` | Matts_py_files/radj.py:424-448 | `ParsedPolygon` (`parse_coordinates`) succeeds exactly when there are at least three non-blank lines and all of them parse |
| `Coordinates.PolygonFollowsLines` | Matts_py_files/radj.py:424-443 | on success each non-blank line gives one coordinate, in input order, as the front of the ring |
| `Coordinates.PolygonClosure` | Matts_py_files/radj.py:447-454 | on success the ring is closed, has n entries when the first and last lines agree and n+1 otherwise, has at least 3 entries (4 when a vertex was appended), and closing it again changes nothing |
| `Coordinates.PolygonInRegion` | Matts_py_files/radj.py:437-443 | every vertex of a parsed ring lies within the inclusive bounds |
| `Coordinates.PolygonFirstError` | Matts_py_files/radj.py:429-445 | the first non-blank line that fails decides the error of the whole text |
| `Coordinates.TooFewLines` | Matts_py_files/radj.py:447-448 | a non-blank text with fewer than three lines, all good, fails with "Need at least 3 coordinates" |
| `Coordinates.TwoFieldLine` | Matts_py_files/radj.py:432-443 | a line of two stripped comma-free fields with in-bounds values parses to those values |
| `Coordinates.ExampleLine` | Matts_py_files/radj.py:429-443 | `-21.0,139.0` parses to (-21, 139) and is sent as (139, -21) |
| `Coordinates.TwoFields` | Matts_py_files/radj.py:433-435 | two stripped comma-free fields joined by a comma split back into exactly those fields |
| `Coordinates.LatitudeOutOfRangeLine` | Matts_py_files/radj.py:432-445 | a well-formed line whose latitude is a number outside the bounds fails with that latitude, whatever numeric value the longitude has (the longitude is converted before the latitude's bounds are checked) |
| `Coordinates.ExampleLatitudeOutOfRange` | Matts_py_files/radj.py:437-445 | `-30.0,139.0` is a line error naming the line, for latitude -30 out of range |
| `Coordinates.ExampleMissingSeparator` | Matts_py_files/radj.py:429-430 | `-21.0 139.0` is a format error naming the line |
| `Coordinates.DegenerateRingAccepted` | Matts_py_files/radj.py:447-454 | lines A, B, A with A and B distinct give the ring [A, B, A], and the summary reports 2 vertices |
| `Coordinates.LonLatInvolution` | Matts_py_files/radj.py:456-458 | swapping the axes twice gives back the vertices |
| `Coordinates.LonLatOfPolygon` | Matts_py_files/radj.py:456-458 | `LonLat` (`convert_latlon_to_lonlat`) of a parsed ring keeps the length and closure, exchanges the axes vertex by vertex, and puts longitudes first |
| `Coordinates.SwappedRing` | Matts_py_files/radj.py:456-458 | swapping the axes of a closed in-bounds ring gives a closed ring of the same length with longitudes first, inside the swapped bounds |
| `Coordinates.SummaryVertexCount` | Matts_py_files/radj.py:489-493 | `CoordsSummary` reports a vertex count exactly when parsing succeeds; the count is n-1 when the text already closed the ring, n otherwise, and at least 2 |
| `Query.BuildSearch` | Matts_py_files/radj.py:559-575 | an unknown data type fails; otherwise the query is the mode's query, and the filters are the category filter when present, then `type:report` |
| `Query.SuggestedQueryWords` | Matts_py_files/radj.py:563-564 | `SearchQuery` in suggested mode joins exactly the first min(3, n) terms with `" OR "`; for single-word terms it splits back into those terms with `OR` between neighbours |
| `Query.SuggestedQueryOfTable` | Matts_py_files/radj.py:95-120 | every entry of the `DataTypes` table has more than three terms, and suggested mode queries its first three |
| `Query.CustomQueryWords` | Matts_py_files/radj.py:565-567 | `SearchQuery` in custom mode gives `*:*` for a blank entry and otherwise a query naming exactly the entry's words, separated by `OR` |
| `Query.OtherModeQuery` | Matts_py_files/radj.py:568-569 | `SearchQuery` in any other mode queries `*:*` |
| `Query.SummaryMatchesQuery` | Matts_py_files/radj.py:480-486 | `SummaryTerms` shows the query's terms, or "No terms" / "*:* (everything)" exactly where the worker falls back to `*:*` |
| `Query.TableCategories` | Matts_py_files/radj.py:95-120 | in the `DataTypes` table only the "All Data Types" entry has no category filter |
| `Listing.Truncate` | Matts_py_files/radj.py:638 | a title longer than the limit is cut to its first `limit` characters followed by `...`; a shorter one is shown whole; either way the shown title keeps the title's first characters |
| `Listing.ListDatasets` | Matts_py_files/radj.py:637-641 | one entry per dataset among the first `cap`, in order, numbered from 1, with truncated titles, the resource count of `ResourceCount` (0 when the key is missing) and the type of `KindOf` (`unknown` when missing) |
| `Listing.PreviewListing` | Matts_py_files/radj.py:637-644 | at most ten entries; "... and N more" appears exactly when there are more than ten; entries plus N account for every dataset |
| `Listing.DownloadSample` | Matts_py_files/radj.py:656-662 | no sample when the reported total is zero, else up to five entries with titles cut at 60 (the entry's type is carried but not printed) |

## Left out

- The tkinter interface: window and widget layout, the variable plumbing, combobox handlers, message boxes, `validate_coords`, `reset_download_state`, `on_region_change`, `load_example_coords` and `clear_coords`. The model takes the text of the coordinates box as a string, after the widget's `get`.
- `set_window_icon`, `browse_output_dir` and `open_output_folder`: filesystem and operating-system calls.
- Threading in `start_download`, `download_worker` and `cancel_download`, the `root.after` hand-offs and the best-effort cancel: concurrency, not logic.
- The calls to `GSQPolygonClient` (`search_datasets_polygon`, `search_and_download_polygon`): the client is an external module that is not part of this model.
- Python's decimal-to-binary conversion in `float()` is a parameter, and `int()` of the maximum-results field in `start_download` is not modelled. The float-to-text rendering of the predefined regions (lines 385 and 398) is left out too.
- The file-format table and its lookup (lines 123-132 and 578): the value is passed through to the external client unchanged.
- The wording, emoji and banners of the summary and result texts, `os.path.abspath`, and the failure branch of `download_complete` (lines 625-628). Only the listed facts are kept: vertex count, search terms, entry numbering, truncated titles, resource counts, types and the listing caps.
- Strings are sequences of Unicode code points, as in Python 3; whitespace is the set of characters `str.isspace()` accepts. Locale and encoding questions do not arise in the source and are not modelled.
