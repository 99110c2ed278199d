/** The coordinate-polygon parser of the downloader's form
    (`GSQDownloaderGUI.parse_coordinates`), the axis swap applied before the
    polygon is handed to the search client (`convert_latlon_to_lonlat`), and
    the vertex count shown in the configuration summary. */
module Coordinates {
  import opened Wrappers
  import opened Text

  /** What Python's `float()` returns: a finite value, NaN or an infinity. */
  datatype Float = Finite(value: real) | NaN | Infinity(negative: bool)

  /** Python's `float()` on a string: `None` where it raises `ValueError`.
      Decimal-to-binary rounding is not modelled, so the parser is a parameter. */
  type NumberParser = string -> Option<Float>

  /** A (latitude, longitude) pair, or a (longitude, latitude) pair after the swap. */
  type Coord = (real, real)

  /** The Queensland bounds, inclusive at both ends. */
  const MinLat: real := -29.0
  const MaxLat: real := -10.0
  const MinLon: real := 138.0
  const MaxLon: real := 154.0

  /** Python's chained comparison `lo <= x <= hi`: false for NaN, and for
      either infinity since the bounds are finite. */
  predicate Within(x: Float, lo: real, hi: real)
  {
    x.Finite? && lo <= x.value <= hi
  }

  predicate InRegion(c: Coord)
  {
    MinLat <= c.0 <= MaxLat && MinLon <= c.1 <= MaxLon
  }

  datatype Field = Latitude | Longitude

  /** Why the body of the `try` block rejected a line. */
  datatype LineFault =
    | WrongFieldCount                      // `lat_str, lon_str = line.split(',')` does not unpack
    | NotANumber(field: Field)             // `float()` raised
    | OutOfRange(field: Field, value: Float)

  /** The `ValueError`s `parse_coordinates` raises, tagged by kind. */
  datatype ParseError =
    | NoCoordinates                        // "No coordinates entered"
    | InvalidFormat(line: string)          // "Invalid format: ... Use latitude,longitude"
    | LineError(line: string, fault: LineFault)  // "Error parsing line '...': ..."
    | TooFewCoordinates                    // "Need at least 3 coordinates"

  /** The `try` block for one stripped line that holds a comma: unpack the
      two fields, convert both, then check latitude, then longitude. */
  function ParseFields(line: string, num: NumberParser): (r: Result<Coord, LineFault>)
    ensures |Split(line, ',')| != 2 ==> r == Err(WrongFieldCount)
    ensures r.Ok? ==> InRegion(r.value) && |Split(line, ',')| == 2
                      && num(Strip(Split(line, ',')[0])) == Some(Finite(r.value.0))
                      && num(Strip(Split(line, ',')[1])) == Some(Finite(r.value.1))
    ensures |Split(line, ',')| == 2 && num(Strip(Split(line, ',')[0])).Some?
            && num(Strip(Split(line, ',')[1])).Some?
            && Within(num(Strip(Split(line, ',')[0])).value, MinLat, MaxLat)
            && Within(num(Strip(Split(line, ',')[1])).value, MinLon, MaxLon)
            ==> r.Ok?
    // when it fails, the first fault in the source's order
    ensures |Split(line, ',')| == 2 && num(Strip(Split(line, ',')[0])).None?
            ==> r == Err(NotANumber(Latitude))
    ensures |Split(line, ',')| == 2 && num(Strip(Split(line, ',')[0])).Some?
            && num(Strip(Split(line, ',')[1])).None?
            ==> r == Err(NotANumber(Longitude))
    ensures |Split(line, ',')| == 2 && num(Strip(Split(line, ',')[0])).Some?
            && num(Strip(Split(line, ',')[1])).Some?
            && !Within(num(Strip(Split(line, ',')[0])).value, MinLat, MaxLat)
            ==> r == Err(OutOfRange(Latitude, num(Strip(Split(line, ',')[0])).value))
    ensures |Split(line, ',')| == 2 && num(Strip(Split(line, ',')[0])).Some?
            && num(Strip(Split(line, ',')[1])).Some?
            && Within(num(Strip(Split(line, ',')[0])).value, MinLat, MaxLat)
            && !Within(num(Strip(Split(line, ',')[1])).value, MinLon, MaxLon)
            ==> r == Err(OutOfRange(Longitude, num(Strip(Split(line, ',')[1])).value))
  {
    var parts := Split(line, ',');
    if |parts| != 2 then Err(WrongFieldCount)
    else match num(Strip(parts[0]))
      case None => Err(NotANumber(Latitude))
      case Some(lat) =>
        match num(Strip(parts[1]))
        case None => Err(NotANumber(Longitude))
        case Some(lon) =>
          if !Within(lat, MinLat, MaxLat) then Err(OutOfRange(Latitude, lat))
          else if !Within(lon, MinLon, MaxLon) then Err(OutOfRange(Longitude, lon))
          else Ok((lat.value, lon.value))
  }

  /** One non-blank stripped line: the comma check outside the `try`, then
      the `try` block whose failures are re-raised as "Error parsing line". */
  function ParseLine(line: string, num: NumberParser): (r: Result<Coord, ParseError>)
    ensures ',' !in line ==> r == Err(InvalidFormat(line))
    ensures Count(line, ',') >= 2 ==> r == Err(LineError(line, WrongFieldCount))
    ensures r.Ok? ==> InRegion(r.value)
    ensures r.Ok? ==> Count(line, ',') == 1
                      && num(Strip(Split(line, ',')[0])) == Some(Finite(r.value.0))
                      && num(Strip(Split(line, ',')[1])) == Some(Finite(r.value.1))
    ensures Count(line, ',') == 1 && num(Strip(Split(line, ',')[0])).Some?
            && num(Strip(Split(line, ',')[1])).Some?
            && Within(num(Strip(Split(line, ',')[0])).value, MinLat, MaxLat)
            && Within(num(Strip(Split(line, ',')[1])).value, MinLon, MaxLon)
            ==> r.Ok?
    // every failure after the comma check is re-raised naming the line
    ensures ',' in line && r.Err? ==> r.error.LineError? && r.error.line == line
  {
    CountZero(line, ',');
    if ',' !in line then Err(InvalidFormat(line))
    else match ParseFields(line, num)
      case Err(fault) => Err(LineError(line, fault))
      case Ok(c) => Ok(c)
  }

  /** A line with a comma fails with exactly the fault of its `try` block. */
  lemma {:induction false} LineFaultOfFields(line: string, num: NumberParser)
    requires ',' in line
    ensures ParseLine(line, num).Err? <==> ParseFields(line, num).Err?
    ensures ParseFields(line, num).Err? ==>
      ParseLine(line, num) == Err(LineError(line, ParseFields(line, num).error))
  {
  }

  /** The lines that reach the comma check: every line stripped, blank ones dropped. */
  function NonBlankLines(lines: seq<string>): (r: seq<string>)
    ensures |r| <= |lines|
    ensures forall j :: 0 <= j < |r| ==> r[j] != []
  {
    if lines == [] then []
    else
      var line := Strip(lines[|lines| - 1]);
      var front := NonBlankLines(lines[..|lines| - 1]);
      if line == [] then front else front + [line]
  }

  predicate AllLinesParse(lines: seq<string>, num: NumberParser)
  {
    forall j :: 0 <= j < |lines| ==> ParseLine(lines[j], num).Ok?
  }

  /** The coordinates of lines that all parse, one per line. */
  function LineCoords(lines: seq<string>, num: NumberParser): (r: seq<Coord>)
    requires AllLinesParse(lines, num)
  {
    seq(|lines|, j requires 0 <= j < |lines| => ParseLine(lines[j], num).value)
  }

  /** The loop over the lines, from the first: the coordinates gathered, or
      the error of the first line that fails. */
  function ParseLines(lines: seq<string>, num: NumberParser): Result<seq<Coord>, ParseError>
  {
    if lines == [] then Ok([])
    else
      match ParseLines(lines[..|lines| - 1], num)
      case Err(e) => Err(e)
      case Ok(coords) =>
        var line := Strip(lines[|lines| - 1]);
        if line == [] then Ok(coords)
        else
          match ParseLine(line, num)
          case Err(e) => Err(e)
          case Ok(c) => Ok(coords + [c])
  }

  predicate IsClosed(ring: seq<Coord>)
  {
    ring != [] && ring[0] == ring[|ring| - 1]
  }

  /** Closes the ring by repeating the first vertex when it differs from the last. */
  function Close(coords: seq<Coord>): (ring: seq<Coord>)
    requires coords != []
    ensures IsClosed(ring)
    ensures |ring| >= |coords| && ring[..|coords|] == coords
  {
    if coords[0] != coords[|coords| - 1] then coords + [coords[0]] else coords
  }

  /** `parse_coordinates` on the text of the coordinates box. */
  function ParsedPolygon(text: string, num: NumberParser): Result<seq<Coord>, ParseError>
  {
    var body := Strip(text);
    if body == [] then Err(NoCoordinates)
    else
      match ParseLines(Split(body, '\n'), num)
      case Err(e) => Err(e)
      case Ok(coords) => if |coords| < 3 then Err(TooFewCoordinates) else Ok(Close(coords))
  }

  /** The lines of the text that the parser examines, in order. */
  function InputLines(text: string): seq<string>
  {
    NonBlankLines(Split(Strip(text), '\n'))
  }

  /** `parse_coordinates`, as the loop the source runs. */
  method ParseCoordinates(text: string, num: NumberParser) returns (r: Result<seq<Coord>, ParseError>)
    ensures r == ParsedPolygon(text, num)
  {
    var body := Strip(text);
    if body == [] {
      return Err(NoCoordinates);
    }
    var lines := Split(body, '\n');
    var coordinates: seq<Coord> := [];
    for i := 0 to |lines|
      invariant ParseLines(lines[..i], num) == Ok(coordinates)
    {
      assert lines[..i + 1][..i] == lines[..i];
      var line := Strip(lines[i]);
      if line == [] {
        continue;
      }
      if ',' !in line {
        ParseLinesPrefixError(lines, i + 1, num);
        return Err(InvalidFormat(line));
      }
      match ParseFields(line, num)
      case Err(fault) =>
        ParseLinesPrefixError(lines, i + 1, num);
        return Err(LineError(line, fault));
      case Ok(c) =>
        coordinates := coordinates + [c];
    }
    assert lines[..|lines|] == lines;
    if |coordinates| < 3 {
      return Err(TooFewCoordinates);
    }
    if coordinates[0] != coordinates[|coordinates| - 1] {
      coordinates := coordinates + [coordinates[0]];
    }
    return Ok(coordinates);
  }

  /** An error raised on some line ends the whole parse with that error. */
  lemma {:induction false} ParseLinesPrefixError(lines: seq<string>, m: nat, num: NumberParser)
    requires m <= |lines| && ParseLines(lines[..m], num).Err?
    ensures ParseLines(lines, num) == ParseLines(lines[..m], num)
    decreases |lines|
  {
    if m == |lines| {
      assert lines[..m] == lines;
    } else {
      var front := lines[..|lines| - 1];
      assert front[..m] == lines[..m];
      ParseLinesPrefixError(front, m, num);
    }
  }

  /** The loop succeeds exactly when every non-blank line parses, and then
      yields one coordinate per non-blank line, in input order. */
  lemma {:induction false} ParseLinesOk(lines: seq<string>, num: NumberParser)
    ensures ParseLines(lines, num).Ok? <==> AllLinesParse(NonBlankLines(lines), num)
    ensures ParseLines(lines, num).Ok? ==>
      ParseLines(lines, num).value == LineCoords(NonBlankLines(lines), num)
  {
    if lines != [] {
      var front := lines[..|lines| - 1];
      var line := Strip(lines[|lines| - 1]);
      ParseLinesOk(front, num);
      if line != [] {
        var nbf := NonBlankLines(front);
        assert NonBlankLines(lines) == nbf + [line];
        AppendLine(nbf, line, num);
      }
    }
  }

  /** One more line parses together with the earlier ones exactly when it
      parses itself, and adds its coordinate at the end. */
  lemma {:induction false} AppendLine(lines: seq<string>, line: string, num: NumberParser)
    ensures AllLinesParse(lines + [line], num) <==> AllLinesParse(lines, num) && ParseLine(line, num).Ok?
    ensures AllLinesParse(lines + [line], num) ==>
      LineCoords(lines + [line], num) == LineCoords(lines, num) + [ParseLine(line, num).value]
  {
    var all := lines + [line];
    assert forall j :: 0 <= j < |lines| ==> all[j] == lines[j];
    assert all[|lines|] == line;
    if AllLinesParse(all, num) {
      assert LineCoords(all, num) == LineCoords(lines, num) + [ParseLine(line, num).value];
    }
  }

  /** The first non-blank line that fails decides the error. */
  lemma {:induction false} ParseLinesFirstError(lines: seq<string>, k: nat, num: NumberParser)
    requires k < |NonBlankLines(lines)|
    requires ParseLine(NonBlankLines(lines)[k], num).Err?
    requires forall j :: 0 <= j < k ==> ParseLine(NonBlankLines(lines)[j], num).Ok?
    ensures ParseLines(lines, num) == Err(ParseLine(NonBlankLines(lines)[k], num).error)
  {
    var front := lines[..|lines| - 1];
    var line := Strip(lines[|lines| - 1]);
    var nbf := NonBlankLines(front);
    var nb := NonBlankLines(lines);
    assert forall j :: 0 <= j < |nbf| ==> nb[j] == nbf[j];
    if k < |nbf| {
      ParseLinesFirstError(front, k, num);
    } else {
      assert line != [] && nb == nbf + [line] && nb[k] == line;
      ParseLinesOk(front, num);
    }
  }

  /** Every error the loop raises comes from a line: a format error or a
      re-raised parse error, never one of the whole-text errors. */
  lemma {:induction false} ParseLinesErrorIsLineError(lines: seq<string>, num: NumberParser)
    ensures ParseLines(lines, num).Err? ==>
      ParseLines(lines, num).error.InvalidFormat? || ParseLines(lines, num).error.LineError?
  {
    if lines != [] {
      ParseLinesErrorIsLineError(lines[..|lines| - 1], num);
    }
  }

  lemma {:induction false} BlankTextHasNoLines(text: string)
    requires Strip(text) == []
    ensures InputLines(text) == []
  {
    assert Split([], '\n') == [[]];
  }

  /** Text that is empty or all whitespace fails with "No coordinates
      entered", and no other text does. */
  lemma {:induction false} NoCoordinatesIffBlank(text: string, num: NumberParser)
    ensures ParsedPolygon(text, num) == Err(NoCoordinates) <==> AllSpace(text)
  {
    StripEmptyIffAllSpace(text);
    ParseLinesErrorIsLineError(Split(Strip(text), '\n'), num);
  }

  /** The parse succeeds exactly when there are at least three non-blank
      lines and every one of them parses. */
  lemma {:induction false} PolygonOkIff(text: string, num: NumberParser)
    ensures ParsedPolygon(text, num).Ok? <==>
      |InputLines(text)| >= 3 && AllLinesParse(InputLines(text), num)
  {
    if Strip(text) == [] {
      BlankTextHasNoLines(text);
    } else {
      ParseLinesOk(Split(Strip(text), '\n'), num);
    }
  }

  /** Each non-blank line gives exactly one coordinate, in input order, and
      these make up the front of the ring. */
  lemma {:induction false} PolygonFollowsLines(text: string, num: NumberParser)
    requires ParsedPolygon(text, num).Ok?
    ensures var lines := InputLines(text);
      AllLinesParse(lines, num) &&
      |ParsedPolygon(text, num).value| >= |lines| &&
      ParsedPolygon(text, num).value[..|lines|] == LineCoords(lines, num)
  {
    ParseLinesOk(Split(Strip(text), '\n'), num);
  }

  /** Closing appends a vertex exactly when the ends differ, and a closed
      ring is left alone. */
  lemma {:induction false} CloseLength(coords: seq<Coord>)
    requires coords != []
    ensures |Close(coords)| == (if coords[0] == coords[|coords| - 1] then |coords| else |coords| + 1)
    ensures Close(Close(coords)) == Close(coords)
  {
  }

  /** The text's ring is the closure of its lines' coordinates. */
  lemma {:induction false} PolygonIsClosedLines(text: string, num: NumberParser)
    requires ParsedPolygon(text, num).Ok?
    ensures AllLinesParse(InputLines(text), num) && |InputLines(text)| >= 3
    ensures ParsedPolygon(text, num).value == Close(LineCoords(InputLines(text), num))
  {
    ParseLinesOk(Split(Strip(text), '\n'), num);
  }

  /** The ring is closed, has at least three entries, repeats the first
      vertex only when the first and last lines differ, and then has at
      least four entries. */
  lemma {:induction false} PolygonClosure(text: string, num: NumberParser)
    requires ParsedPolygon(text, num).Ok?
    ensures |InputLines(text)| >= 3 && AllLinesParse(InputLines(text), num)
    ensures IsClosed(ParsedPolygon(text, num).value) && |ParsedPolygon(text, num).value| >= 3
    ensures var cs := LineCoords(InputLines(text), num);
      |ParsedPolygon(text, num).value| == (if cs[0] == cs[|cs| - 1] then |cs| else |cs| + 1)
    ensures |ParsedPolygon(text, num).value| == |InputLines(text)| + 1 ==> |ParsedPolygon(text, num).value| >= 4
    ensures Close(ParsedPolygon(text, num).value) == ParsedPolygon(text, num).value
  {
    var lines := InputLines(text);
    PolygonIsClosedLines(text, num);
    var cs := LineCoords(lines, num);
    assert |cs| == |lines|;
    ClosedRing(cs, ParsedPolygon(text, num).value);
  }

  /** The facts about a ring closed from at least three coordinates, stated
      apart from the text they came from. */
  lemma {:induction false} ClosedRing(cs: seq<Coord>, ring: seq<Coord>)
    requires |cs| >= 3 && ring == Close(cs)
    ensures IsClosed(ring) && |ring| >= 3
    ensures |ring| == (if cs[0] == cs[|cs| - 1] then |cs| else |cs| + 1)
    ensures |ring| == |cs| + 1 ==> |ring| >= 4
    ensures Close(ring) == ring
  {
    CloseLength(cs);
  }

  /** Every vertex of a parsed ring lies inside the bounds, ends included. */
  lemma {:induction false} PolygonInRegion(text: string, num: NumberParser)
    requires ParsedPolygon(text, num).Ok?
    ensures forall c :: c in ParsedPolygon(text, num).value ==> InRegion(c)
  {
    var lines := InputLines(text);
    PolygonIsClosedLines(text, num);
    LineCoordsInRegion(lines, num);
    CloseInRegion(LineCoords(lines, num));
  }

  /** The coordinates of lines that all parse lie inside the bounds. */
  lemma {:induction false} LineCoordsInRegion(lines: seq<string>, num: NumberParser)
    requires AllLinesParse(lines, num)
    ensures forall c :: c in LineCoords(lines, num) ==> InRegion(c)
  {
    var cs := LineCoords(lines, num);
    forall c | c in cs
      ensures InRegion(c)
    {
      var i :| 0 <= i < |cs| && cs[i] == c;
      assert ParseLine(lines[i], num).Ok?;
    }
  }

  /** Closing adds no vertex that was not already there. */
  lemma {:induction false} CloseInRegion(cs: seq<Coord>)
    requires cs != [] && forall c :: c in cs ==> InRegion(c)
    ensures forall c :: c in Close(cs) ==> InRegion(c)
  {
    assert cs[0] in cs;
  }

  /** The first non-blank line that fails decides the error of the whole text. */
  lemma {:induction false} PolygonFirstError(text: string, num: NumberParser, k: nat)
    requires k < |InputLines(text)|
    requires ParseLine(InputLines(text)[k], num).Err?
    requires forall j :: 0 <= j < k ==> ParseLine(InputLines(text)[j], num).Ok?
    ensures ParsedPolygon(text, num) == Err(ParseLine(InputLines(text)[k], num).error)
  {
    if Strip(text) == [] {
      BlankTextHasNoLines(text);
    }
    ParseLinesFirstError(Split(Strip(text), '\n'), k, num);
  }

  /** Fewer than three good lines in a non-blank text is "Need at least 3 coordinates". */
  lemma {:induction false} TooFewLines(text: string, num: NumberParser)
    requires !AllSpace(text)
    requires AllLinesParse(InputLines(text), num) && |InputLines(text)| < 3
    ensures ParsedPolygon(text, num) == Err(TooFewCoordinates)
  {
    StripEmptyIffAllSpace(text);
    ParseLinesOk(Split(Strip(text), '\n'), num);
  }

  /** `convert_latlon_to_lonlat`: swap the two axes of every vertex. */
  function LonLat(coords: seq<Coord>): seq<Coord>
  {
    seq(|coords|, i requires 0 <= i < |coords| => (coords[i].1, coords[i].0))
  }

  /** Swapping twice gives back the original vertices. */
  lemma {:induction false} LonLatInvolution(coords: seq<Coord>)
    ensures LonLat(LonLat(coords)) == coords
  {
  }

  /** The swapped ring sent to the search client keeps the length and the
      closure of the parsed ring, vertex by vertex with the axes exchanged,
      so its first axis is the longitude range. */
  lemma {:induction false} LonLatOfPolygon(text: string, num: NumberParser)
    requires ParsedPolygon(text, num).Ok?
    ensures |LonLat(ParsedPolygon(text, num).value)| == |ParsedPolygon(text, num).value|
    ensures IsClosed(LonLat(ParsedPolygon(text, num).value))
    ensures var ring := ParsedPolygon(text, num).value;
      forall i :: 0 <= i < |ring| ==>
        LonLat(ring)[i] == (ring[i].1, ring[i].0) &&
        MinLon <= LonLat(ring)[i].0 <= MaxLon && MinLat <= LonLat(ring)[i].1 <= MaxLat
  {
    PolygonClosure(text, num);
    PolygonInRegion(text, num);
    SwappedRing(ParsedPolygon(text, num).value);
  }

  /** Swapping the axes of a closed ring inside the bounds gives a closed
      ring with longitudes first, inside the swapped bounds. */
  lemma {:induction false} SwappedRing(ring: seq<Coord>)
    requires IsClosed(ring) && forall c :: c in ring ==> InRegion(c)
    ensures |LonLat(ring)| == |ring| && IsClosed(LonLat(ring))
    ensures forall i :: 0 <= i < |ring| ==>
      LonLat(ring)[i] == (ring[i].1, ring[i].0) &&
      MinLon <= LonLat(ring)[i].0 <= MaxLon && MinLat <= LonLat(ring)[i].1 <= MaxLat
  {
    assert forall i :: 0 <= i < |ring| ==> ring[i] in ring;
  }

  /** The "Coordinates:" line of the configuration summary. */
  datatype CoordsInfo = ValidPolygon(vertices: int) | InvalidOrMissing

  /** `update_summary` reports `len(coords) - 1` vertices, or that the
      coordinates are invalid or missing whatever the error was. */
  function CoordsSummary(text: string, num: NumberParser): CoordsInfo
  {
    match ParsedPolygon(text, num)
    case Ok(ring) => ValidPolygon(|ring| - 1)
    case Err(_) => InvalidOrMissing
  }

  /** The summary's vertex count is the number of distinct ring positions:
      the number of lines when the ring was open, one fewer when the text
      already repeated its first vertex; it can be as low as two. */
  lemma {:induction false} SummaryVertexCount(text: string, num: NumberParser)
    ensures CoordsSummary(text, num).ValidPolygon? <==> ParsedPolygon(text, num).Ok?
    ensures CoordsSummary(text, num).ValidPolygon? ==>
      |InputLines(text)| >= 3 && AllLinesParse(InputLines(text), num)
    ensures CoordsSummary(text, num).ValidPolygon? ==>
      var cs := LineCoords(InputLines(text), num);
      var v := CoordsSummary(text, num).vertices;
      v >= 2 && v == (if cs[0] == cs[|cs| - 1] then |cs| - 1 else |cs|)
  {
    if ParsedPolygon(text, num).Ok? {
      PolygonClosure(text, num);
    }
  }

  lemma {:induction false} ThreeLineText(a: string, b: string)
    requires a != [] && Strip(a) == a && '\n' !in a
    requires '\n' !in b
    ensures Strip(a + "\n" + b + "\n" + a) == a + "\n" + b + "\n" + a
    ensures Split(a + "\n" + b + "\n" + a, '\n') == [a, b, a]
  {
    var text := a + "\n" + b + "\n" + a;
    StrippedEnds(a);
    assert text[0] == a[0] && text[|text| - 1] == a[|a| - 1];
    StripOfTrimmed(text);
    JoinCons([a, b, a], "\n");
    assert [a, b, a][1..] == [b, a] && [b, a][1..] == [a];
    JoinCons([b, a], "\n");
    assert Join([a, b, a], "\n") == text;
    SplitJoin([a, b, a], '\n');
  }

  lemma {:induction false} ThreeLinesParse(a: string, b: string, num: NumberParser)
    requires a != [] && Strip(a) == a && b != [] && Strip(b) == b
    requires ParseLine(a, num).Ok? && ParseLine(b, num).Ok?
    ensures var x, y := ParseLine(a, num).value, ParseLine(b, num).value;
      ParseLines([a, b, a], num) == Ok([x, y, x])
  {
    var x, y := ParseLine(a, num).value, ParseLine(b, num).value;
    assert [] + [a] == [a] && [] + [x] == [x];
    ParseOneMore([], a, num, []);
    assert [a] + [b] == [a, b] && [x] + [y] == [x, y];
    ParseOneMore([a], b, num, [x]);
    assert [a, b] + [a] == [a, b, a] && [x, y] + [x] == [x, y, x];
    ParseOneMore([a, b], a, num, [x, y]);
  }

  /** A stripped line that parses adds its coordinate to those of the lines before it. */
  lemma {:induction false} ParseOneMore(lines: seq<string>, line: string, num: NumberParser, coords: seq<Coord>)
    requires ParseLines(lines, num) == Ok(coords)
    requires line != [] && Strip(line) == line && ParseLine(line, num).Ok?
    ensures ParseLines(lines + [line], num) == Ok(coords + [ParseLine(line, num).value])
  {
    assert (lines + [line])[..|lines|] == lines;
    assert (lines + [line])[|lines|] == line;
  }

  /** Three lines A, B, A with A and B distinct pass the three-coordinate
      check: the closing repetition counts as one of the three, so a ring
      with only two distinct vertices is accepted and summarised as such. */
  lemma {:induction false} DegenerateRingAccepted(a: string, b: string, num: NumberParser)
    requires a != [] && Strip(a) == a && '\n' !in a
    requires b != [] && Strip(b) == b && '\n' !in b
    requires ParseLine(a, num).Ok? && ParseLine(b, num).Ok?
    requires ParseLine(a, num).value != ParseLine(b, num).value
    ensures var x, y := ParseLine(a, num).value, ParseLine(b, num).value;
      ParsedPolygon(a + "\n" + b + "\n" + a, num) == Ok([x, y, x]) &&
      CoordsSummary(a + "\n" + b + "\n" + a, num) == ValidPolygon(2)
  {
    ThreeLineText(a, b);
    ThreeLinesParse(a, b, num);
  }

  /** A line made of two comma-free, already stripped fields whose values
      lie in the bounds parses to those values. */
  lemma {:induction false} TwoFieldLine(lat: string, lon: string, num: NumberParser, x: real, y: real)
    requires ',' !in lat && lat != [] && !IsSpace(lat[0]) && !IsSpace(lat[|lat| - 1])
    requires ',' !in lon && lon != [] && !IsSpace(lon[0]) && !IsSpace(lon[|lon| - 1])
    requires num(lat) == Some(Finite(x)) && num(lon) == Some(Finite(y))
    requires InRegion((x, y))
    ensures ParseLine(lat + [','] + lon, num) == Ok((x, y))
  {
    TwoFields(lat, lon);
  }

  /** Two comma-free, already stripped fields joined by a comma split back
      into those two fields, each of which strips to itself. */
  lemma {:induction false} TwoFields(lat: string, lon: string)
    requires ',' !in lat && lat != [] && !IsSpace(lat[0]) && !IsSpace(lat[|lat| - 1])
    requires ',' !in lon && lon != [] && !IsSpace(lon[0]) && !IsSpace(lon[|lon| - 1])
    ensures ',' in lat + [','] + lon
    ensures Split(lat + [','] + lon, ',') == [lat, lon]
    ensures Strip(lat) == lat && Strip(lon) == lon
  {
    SplitAfterPiece(lat, ',', lon);
    SplitNoSeparator(lon, ',');
    StripOfTrimmed(lat);
    StripOfTrimmed(lon);
    assert (lat + [','] + lon)[|lat|] == ',';
  }

  /** A well-formed line whose latitude is a number outside the bounds fails
      with that latitude, whatever numeric value the longitude has. */
  lemma {:induction false} LatitudeOutOfRangeLine(lat: string, lon: string, num: NumberParser, x: real)
    requires ',' !in lat && lat != [] && !IsSpace(lat[0]) && !IsSpace(lat[|lat| - 1])
    requires ',' !in lon && lon != [] && !IsSpace(lon[0]) && !IsSpace(lon[|lon| - 1])
    requires num(lat) == Some(Finite(x)) && num(lon).Some?
    requires !(MinLat <= x <= MaxLat)
    ensures ParseLine(lat + [','] + lon, num)
            == Err(LineError(lat + [','] + lon, OutOfRange(Latitude, Finite(x))))
  {
    TwoFields(lat, lon);
  }

  /** The line `-21.0,139.0` of the example polygon gives latitude -21 and
      longitude 139, swapped to (139, -21) for the search client. */
  lemma {:induction false} ExampleLine(num: NumberParser)
    requires num("-21.0") == Some(Finite(-21.0)) && num("139.0") == Some(Finite(139.0))
    ensures ParseLine("-21.0,139.0", num) == Ok((-21.0, 139.0))
    ensures LonLat([(-21.0, 139.0)]) == [(139.0, -21.0)]
  {
    assert "-21.0,139.0" == "-21.0" + [','] + "139.0";
    TwoFieldLine("-21.0", "139.0", num, -21.0, 139.0);
    SwapOne(-21.0, 139.0);
  }

  /** The swap of a single vertex. */
  lemma {:induction false} SwapOne(lat: real, lon: real)
    ensures LonLat([(lat, lon)]) == [(lon, lat)]
  {
    assert LonLat([(lat, lon)])[0] == (lon, lat);
  }

  /** `-30.0,139.0` lies one degree south of the region: the latitude check
      rejects it before the longitude's bounds are checked. */
  lemma {:induction false} ExampleLatitudeOutOfRange(num: NumberParser)
    requires num("-30.0") == Some(Finite(-30.0)) && num("139.0") == Some(Finite(139.0))
    ensures ParseLine("-30.0,139.0", num)
            == Err(LineError("-30.0,139.0", OutOfRange(Latitude, Finite(-30.0))))
  {
    assert "-30.0,139.0" == "-30.0" + [','] + "139.0";
    LatitudeOutOfRangeLine("-30.0", "139.0", num, -30.0);
  }

  /** `-21.0 139.0` has no separator and is a format error naming the line. */
  lemma {:induction false} ExampleMissingSeparator(num: NumberParser)
    ensures ParseLine("-21.0 139.0", num) == Err(InvalidFormat("-21.0 139.0"))
  {
    assert forall k :: 0 <= k < |"-21.0 139.0"| ==> "-21.0 139.0"[k] != ',';
  }
}
