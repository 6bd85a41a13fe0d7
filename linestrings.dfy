/** `build_linestring_wkt` and the `main` loop of the linestring script:
    every track read from a CSV file becomes one WKT `LINESTRING` row,
    numbered from 1. Reading the files, building the output frame and
    writing it are not modelled; Python's `str(float)` is the parameter
    `fmt` and `float()` the parameter `parse`. */
module Linestrings {
  import opened Options
  import opened Strings
  import opened KmlCoordinates

  /** One vertex of a linestring. */
  datatype Vertex = Vertex(lon: real, lat: real)

  /** `zip(df['lon'], df['lat'])`: pairs up to the shorter column. */
  function Zip(lon: seq<real>, lat: seq<real>): (vs: seq<Vertex>)
    ensures |vs| == if |lon| <= |lat| then |lon| else |lat|
    ensures forall i :: 0 <= i < |vs| ==> vs[i] == Vertex(lon[i], lat[i])
  {
    if lon == [] || lat == [] then [] else [Vertex(lon[0], lat[0])] + Zip(lon[1..], lat[1..])
  }

  /** `f"{lon} {lat}"`. */
  function VertexText(v: Vertex, fmt: real -> string): string {
    fmt(v.lon) + " " + fmt(v.lat)
  }

  /** The coordinate texts of the vertices, in order. */
  function VertexTexts(vs: seq<Vertex>, fmt: real -> string): (ts: seq<string>)
    ensures |ts| == |vs|
    ensures forall i :: 0 <= i < |vs| ==> ts[i] == VertexText(vs[i], fmt)
  {
    seq(|vs|, i requires 0 <= i < |vs| => VertexText(vs[i], fmt))
  }

  const Prefix: string := "LINESTRING("

  /** `build_linestring_wkt(df)`: `LINESTRING(` then the vertices joined
      with `", "`, then `)`. */
  function BuildLinestringWkt(lon: seq<real>, lat: seq<real>, fmt: real -> string): (wkt: string)
    ensures |wkt| >= |Prefix| + 1 && wkt[..|Prefix|] == Prefix && wkt[|wkt| - 1] == ')'
    ensures lon == [] || lat == [] ==> wkt == "LINESTRING()"
  {
    Prefix + Join(VertexTexts(Zip(lon, lat), fmt), ", ") + ")"
  }

  /** Reads one `"<lon> <lat>"` piece: exactly two whitespace-separated numbers. */
  function ParseVertex(piece: string, parse: string -> Option<real>): (r: Option<Vertex>)
    ensures r.Some? <==> |Words(piece)| == 2 && parse(Words(piece)[0]).Some? && parse(Words(piece)[1]).Some?
    ensures r.Some? ==> r.value == Vertex(parse(Words(piece)[0]).value, parse(Words(piece)[1]).value)
  {
    var ws := Words(piece);
    if |ws| == 2 && parse(ws[0]).Some? && parse(ws[1]).Some? then
      Some(Vertex(parse(ws[0]).value, parse(ws[1]).value))
    else None
  }

  /** Reads every piece; fails if one of them fails. */
  function ParseVertices(pieces: seq<string>, parse: string -> Option<real>): (r: Option<seq<Vertex>>)
    ensures r.Some? ==> |r.value| == |pieces|
    ensures r.Some? <==> forall k :: 0 <= k < |pieces| ==> ParseVertex(pieces[k], parse).Some?
    ensures r.Some? ==> forall k :: 0 <= k < |pieces| ==> r.value[k] == ParseVertex(pieces[k], parse).value
  {
    if pieces == [] then Some([])
    else
      match (ParseVertex(pieces[0], parse), ParseVertices(pieces[1..], parse))
      case (Some(v), Some(vs)) =>
        assert forall k :: 1 <= k < |pieces| ==> pieces[k] == pieces[1..][k - 1];
        Some([v] + vs)
      case (_, _) =>
        assert forall k :: 1 <= k < |pieces| ==> pieces[k] == pieces[1..][k - 1];
        None
  }

  /** A reader for the WKT this script writes: the inverse of
      `BuildLinestringWkt`, used to state what the text holds. */
  function ParseLinestring(wkt: string, parse: string -> Option<real>): (r: Option<seq<Vertex>>)
    ensures r.Some? ==> |wkt| >= |Prefix| + 1 && wkt[..|Prefix|] == Prefix && wkt[|wkt| - 1] == ')'
  {
    if |wkt| >= |Prefix| + 1 && wkt[..|Prefix|] == Prefix && wkt[|wkt| - 1] == ')' then
      var body := wkt[|Prefix|..|wkt| - 1];
      if body == "" then Some([]) else ParseVertices(Split(body, ','), parse)
    else None
  }

  /** Each text after the first, with the space that `", "` puts before it. */
  function Spaced(ts: seq<string>): (r: seq<string>)
    ensures |r| == |ts| && forall i :: 0 <= i < |ts| ==> r[i] == " " + ts[i]
  {
    seq(|ts|, i requires 0 <= i < |ts| => " " + ts[i])
  }

  /** Joining with `", "` is joining with `","` pieces that start with a space. */
  lemma {:induction false} JoinCommaSpace(ts: seq<string>)
    requires |ts| >= 1
    ensures " " + Join(ts, ", ") == Join(Spaced(ts), ",")
    decreases |ts|
  {
    if |ts| > 1 {
      JoinCommaSpace(ts[1..]);
      assert Spaced(ts)[1..] == Spaced(ts[1..]);
    }
  }

  /** `Join(ts, ", ")` split at the commas: the first text, then the rest
      each behind a space. */
  lemma SplitCommaSpace(ts: seq<string>)
    requires |ts| >= 1
    requires forall k :: 0 <= k < |ts| ==> ',' !in ts[k]
    ensures Split(Join(ts, ", "), ',') == [ts[0]] + Spaced(ts[1..])
  {
    var pieces := [ts[0]] + Spaced(ts[1..]);
    JoinAsPieces(ts);
    forall k | 0 <= k < |pieces| ensures ',' !in pieces[k] {
      if k > 0 {
        assert pieces[k] == " " + ts[k];
      }
    }
    SplitJoin(pieces, ',');
  }

  /** The pieces of `SplitCommaSpace`, joined back with `","`. */
  lemma JoinAsPieces(ts: seq<string>)
    requires |ts| >= 1
    ensures Join([ts[0]] + Spaced(ts[1..]), ",") == Join(ts, ", ")
  {
    var pieces := [ts[0]] + Spaced(ts[1..]);
    if |ts| > 1 {
      var rest := Join(ts[1..], ", ");
      JoinCommaSpace(ts[1..]);
      assert pieces[1..] == Spaced(ts[1..]);
      CommaThenSpace(ts[0], rest);
    }
  }

  /** `","` then a space is `", "`. */
  lemma CommaThenSpace(first: string, rest: string)
    ensures first + "," + (" " + rest) == first + ", " + rest
  {
  }

  /** A leading space does not change `str.split()`. */
  lemma WordsLeadingSpace(s: string)
    ensures Words(" " + s) == Words(s)
  {
    assert (" " + s)[1..] == s;
  }

  /** `RoundTrips` for both numbers of a vertex. */
  ghost predicate VertexRoundTrips(parse: string -> Option<real>, fmt: real -> string, v: Vertex) {
    RoundTrips(parse, fmt, v.lon) && RoundTrips(parse, fmt, v.lat)
  }

  /** One vertex text reads back as its vertex. */
  lemma VertexRoundTrip(v: Vertex, parse: string -> Option<real>, fmt: real -> string)
    requires parse("") == None && VertexRoundTrips(parse, fmt, v)
    ensures ParseVertex(VertexText(v, fmt), parse) == Some(v)
    ensures ParseVertex(" " + VertexText(v, fmt), parse) == Some(v)
  {
    var a, b := fmt(v.lon), fmt(v.lat);
    assert Join([a, b], " ") == VertexText(v, fmt);
    WordsOfJoin([a, b]);
    WordsLeadingSpace(VertexText(v, fmt));
  }

  /** No vertex text holds a comma. */
  lemma VertexTextsCommaFree(vs: seq<Vertex>, parse: string -> Option<real>, fmt: real -> string)
    requires forall k :: 0 <= k < |vs| ==> VertexRoundTrips(parse, fmt, vs[k])
    ensures forall k :: 0 <= k < |vs| ==> ',' !in VertexTexts(vs, fmt)[k]
  {
    forall k | 0 <= k < |vs| ensures ',' !in VertexTexts(vs, fmt)[k] {
      assert VertexTexts(vs, fmt)[k] == fmt(vs[k].lon) + " " + fmt(vs[k].lat);
    }
  }

  /** Reading the written WKT gives back the zipped coordinates: the text
      holds every vertex, in order, and nothing else. Only the numbers
      that are written must read back. */
  lemma LinestringRoundTrip(lon: seq<real>, lat: seq<real>, parse: string -> Option<real>,
                            fmt: real -> string)
    requires parse("") == None
    requires forall i :: 0 <= i < |lon| && i < |lat| ==>
      RoundTrips(parse, fmt, lon[i]) && RoundTrips(parse, fmt, lat[i])
    ensures ParseLinestring(BuildLinestringWkt(lon, lat, fmt), parse) == Some(Zip(lon, lat))
  {
    var vs := Zip(lon, lat);
    var ts := VertexTexts(vs, fmt);
    var wkt := BuildLinestringWkt(lon, lat, fmt);
    var body := Join(ts, ", ");
    assert wkt == Prefix + body + ")";
    assert wkt[|Prefix|..|wkt| - 1] == body;
    if vs != [] {
      forall k | 0 <= k < |vs| ensures VertexRoundTrips(parse, fmt, vs[k]) {
        assert vs[k] == Vertex(lon[k], lat[k]);
      }
      VertexTextsCommaFree(vs, parse, fmt);
      SplitCommaSpace(ts);
      var pieces := [ts[0]] + Spaced(ts[1..]);
      JoinFirst(ts, ", ");
      assert body != "";
      forall k | 0 <= k < |vs| ensures ParseVertex(pieces[k], parse) == Some(vs[k]) {
        VertexRoundTrip(vs[k], parse, fmt);
        if k > 0 {
          assert pieces[k] == " " + ts[k];
        }
      }
      assert ParseVertices(pieces, parse).value == vs;
    }
  }

  /** A joined text starts with its first piece. */
  lemma JoinFirst(ts: seq<string>, sep: string)
    requires |ts| >= 1
    ensures |Join(ts, sep)| >= |ts[0]| && Join(ts, sep)[..|ts[0]|] == ts[0]
  {
    if |ts| > 1 {
      assert Join(ts, sep) == ts[0] + (sep + Join(ts[1..], sep));
    }
  }

  /** One CSV file: its name and its `lon`/`lat` columns. */
  datatype CsvTrack = CsvTrack(name: string, lon: seq<real>, lat: seq<real>)

  /** The three parallel columns `main` collects. */
  datatype LinestringTable = LinestringTable(linestring: seq<string>, fileName: seq<string>, testId: seq<int>)

  /** The `main` loop: one row per file, in order, numbered from 1. */
  method CollectLinestrings(files: seq<CsvTrack>, fmt: real -> string) returns (table: LinestringTable)
    ensures |table.linestring| == |files| && |table.fileName| == |files| && |table.testId| == |files|
    ensures forall i :: 0 <= i < |files| ==>
      table.testId[i] == i + 1 && table.fileName[i] == files[i].name &&
      table.linestring[i] == BuildLinestringWkt(files[i].lon, files[i].lat, fmt)
  {
    var linestring, fileName, testId := [], [], [];
    var count := 1;
    for i := 0 to |files|
      invariant count == i + 1
      invariant |linestring| == i && |fileName| == i && |testId| == i
      invariant forall j :: 0 <= j < i ==>
        testId[j] == j + 1 && fileName[j] == files[j].name &&
        linestring[j] == BuildLinestringWkt(files[j].lon, files[j].lat, fmt)
    {
      var f := files[i];
      var wkt := BuildLinestringWkt(f.lon, f.lat, fmt);
      linestring := linestring + [wkt];
      fileName := fileName + [f.name];
      testId := testId + [count];
      count := count + 1;
    }
    table := LinestringTable(linestring, fileName, testId);
  }

  /** Every row of the table reads back as the coordinates of its file,
      and the test ids are distinct. */
  lemma TableRowsRoundTrip(files: seq<CsvTrack>, table: LinestringTable, parse: string -> Option<real>,
                           fmt: real -> string, i: nat)
    requires parse("") == None
    requires |table.linestring| == |files| && |table.testId| == |files| && i < |files|
    requires forall j :: 0 <= j < |files| ==>
      table.testId[j] == j + 1 && table.linestring[j] == BuildLinestringWkt(files[j].lon, files[j].lat, fmt)
    requires forall j :: 0 <= j < |files[i].lon| && j < |files[i].lat| ==>
      RoundTrips(parse, fmt, files[i].lon[j]) && RoundTrips(parse, fmt, files[i].lat[j])
    ensures ParseLinestring(table.linestring[i], parse) == Some(Zip(files[i].lon, files[i].lat))
    ensures forall j :: 0 <= j < |files| && j != i ==> table.testId[j] != table.testId[i]
  {
    LinestringRoundTrip(files[i].lon, files[i].lat, parse, fmt);
  }
}
