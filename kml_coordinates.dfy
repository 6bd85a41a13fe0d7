/** `extract_kml_coordinates`: from the text of every `<coordinates>`
    element, in document order, to the list of (lon, lat, alt) samples.
    Finding the elements in the XML tree is not modelled: the input is the
    sequence of their `.text` values (`None` when an element has no text).
    Python's `float()` is the parameter `parse`. */
module KmlCoordinates {
  import opened Options
  import opened Strings

  /** One coordinate triple; `alt` is `None` when the altitude is missing. */
  datatype Sample = Sample(lon: real, lat: real, alt: Option<real>)

  /** The decision taken for a token already split into its fields. */
  function ParseFields(parts: seq<string>, parse: string -> Option<real>): (r: Option<Sample>)
    // a tuple is emitted exactly when there are at least two fields and the first two parse
    ensures r.Some? <==> |parts| >= 2 && parse(parts[0]).Some? && parse(parts[1]).Some?
    // the emitted tuple holds the first two fields, as parsed
    ensures r.Some? ==> r.value.lon == parse(parts[0]).value && r.value.lat == parse(parts[1]).value
    // altitude: present exactly when a non-empty third field parses
    ensures r.Some? ==>
      (r.value.alt.Some? <==> |parts| >= 3 && parts[2] != "" && parse(parts[2]).Some?) &&
      (r.value.alt.Some? ==> r.value.alt == parse(parts[2]))
    // `float('')` fails, so an empty lon or lat field is never accepted
    ensures parse("") == None && |parts| >= 2 && (parts[0] == "" || parts[1] == "") ==> r == None
  {
    if |parts| < 2 then None
    else
      var lon, lat := parse(parts[0]), parse(parts[1]);
      if lon.None? || lat.None? then None
      else
        var alt := if |parts| >= 3 && parts[2] != "" then parse(parts[2]) else None;
        Some(Sample(lon.value, lat.value, alt))
  }

  /** The decision taken for one whitespace-separated token `lon,lat[,alt]`. */
  function ParseToken(token: string, parse: string -> Option<real>): Option<Sample> {
    ParseFields(Split(token, ','), parse)
  }

  /** A token without a comma is one field, too few to be a coordinate. */
  lemma CommaFreeTokenSkipped(token: string, parse: string -> Option<real>)
    requires ',' !in token
    ensures Split(token, ',') == [token]
    ensures ParseToken(token, parse) == None
  {
  }

  /** What one token adds to the output: its sample, or nothing. */
  function Accepted(token: string, parse: string -> Option<real>): seq<Sample> {
    match ParseToken(token, parse)
    case Some(s) => [s]
    case None => []
  }

  /** The samples that the tokens of one text yield, in token order. */
  function AcceptTokens(tokens: seq<string>, parse: string -> Option<real>): (out: seq<Sample>)
    ensures |out| <= |tokens|
  {
    if tokens == [] then []
    else AcceptTokens(tokens[..|tokens| - 1], parse) + Accepted(tokens[|tokens| - 1], parse)
  }

  /** The text of one element; an absent text reads as "" (`coord_elem.text or ''`). */
  function ElementText(text: Option<string>): string {
    text.GetOr("")
  }

  /** Every token of every element, in document order. */
  function AllTokens(texts: seq<Option<string>>): seq<string> {
    if texts == [] then []
    else AllTokens(texts[..|texts| - 1]) + Words(ElementText(texts[|texts| - 1]))
  }

  /** The samples one element contributes. */
  function ElementCoordinates(text: Option<string>, parse: string -> Option<real>): seq<Sample> {
    AcceptTokens(Words(ElementText(text)), parse)
  }

  /** The whole result of `extract_kml_coordinates`, element by element. */
  function ExtractAll(texts: seq<Option<string>>, parse: string -> Option<real>): (out: seq<Sample>)
    ensures |out| <= |AllTokens(texts)|
  {
    if texts == [] then []
    else
      ExtractAll(texts[..|texts| - 1], parse) + ElementCoordinates(texts[|texts| - 1], parse)
  }

  /** The loop of `extract_kml_coordinates` over the elements. */
  method ExtractKmlCoordinates(texts: seq<Option<string>>, parse: string -> Option<real>)
    returns (coords: seq<Sample>)
    ensures coords == ExtractAll(texts, parse)
  {
    coords := [];
    var e := 0;
    while e < |texts|
      invariant 0 <= e <= |texts|
      invariant coords == ExtractAll(texts[..e], parse)
    {
      ExtractAllStep(texts, e, parse);
      var text := Strip(ElementText(texts[e]));
      StrippedElement(texts[e], text, parse);
      if text == "" {
        e := e + 1;
        continue;
      }
      coords := AppendTokenCoordinates(coords, Words(text), parse);
      e := e + 1;
    }
    assert texts[..e] == texts;
  }

  /** What an element contributes, in terms of its stripped text. */
  lemma StrippedElement(text: Option<string>, stripped: string, parse: string -> Option<real>)
    requires stripped == Strip(ElementText(text))
    ensures ElementCoordinates(text, parse) == AcceptTokens(Words(stripped), parse)
    ensures stripped == "" ==> ElementCoordinates(text, parse) == []
  {
    WordsStrip(ElementText(text));
  }

  /** The inner loop of `extract_kml_coordinates`: each token of one
      element is split on commas, checked, and appended or skipped. */
  method AppendTokenCoordinates(coords0: seq<Sample>, tokens: seq<string>, parse: string -> Option<real>)
    returns (coords: seq<Sample>)
    ensures coords == coords0 + AcceptTokens(tokens, parse)
  {
    coords := coords0;
    var k := 0;
    assert tokens[..0] == [];
    while k < |tokens|
      invariant 0 <= k <= |tokens|
      invariant coords == coords0 + AcceptTokens(tokens[..k], parse)
    {
      var parts := Split(tokens[k], ',');
      if |parts| < 2 {
        SkipToken(tokens, k, parse);
        k := k + 1;
        continue;
      }
      var lon := parse(parts[0]);
      var lat := parse(parts[1]);
      if lon.None? || lat.None? {
        SkipToken(tokens, k, parse);
        k := k + 1;
        continue;
      }
      var alt := None;
      if |parts| >= 3 && parts[2] != "" {
        alt := parse(parts[2]);
      }
      var sample := Sample(lon.value, lat.value, alt);
      TakeToken(tokens, k, parse, sample);
      assert coords + [sample] == coords0 + (AcceptTokens(tokens[..k], parse) + [sample]);
      coords := coords + [sample];
      k := k + 1;
    }
    assert tokens[..k] == tokens;
  }

  /** A token the inner loop skips adds nothing. */
  lemma SkipToken(tokens: seq<string>, k: nat, parse: string -> Option<real>)
    requires k < |tokens| && ParseToken(tokens[k], parse) == None
    ensures AcceptTokens(tokens[..k + 1], parse) == AcceptTokens(tokens[..k], parse)
  {
    AcceptTokensStep(tokens, k, parse);
  }

  /** A token the inner loop takes adds its sample. */
  lemma TakeToken(tokens: seq<string>, k: nat, parse: string -> Option<real>, sample: Sample)
    requires k < |tokens| && ParseToken(tokens[k], parse) == Some(sample)
    ensures AcceptTokens(tokens[..k + 1], parse) == AcceptTokens(tokens[..k], parse) + [sample]
  {
    AcceptTokensStep(tokens, k, parse);
  }

  /** One more element of the outer loop. */
  lemma ExtractAllStep(texts: seq<Option<string>>, e: nat, parse: string -> Option<real>)
    requires e < |texts|
    ensures ExtractAll(texts[..e + 1], parse) ==
            ExtractAll(texts[..e], parse) + ElementCoordinates(texts[e], parse)
    ensures Words(ElementText(texts[e])) == [] ==> ElementCoordinates(texts[e], parse) == []
  {
    assert texts[..e + 1][..e] == texts[..e];
  }

  /** One more token of the inner loop, in the terms the loop uses. */
  lemma AcceptTokensStep(tokens: seq<string>, k: nat, parse: string -> Option<real>)
    requires k < |tokens|
    ensures AcceptTokens(tokens[..k + 1], parse) ==
            AcceptTokens(tokens[..k], parse) +
            (var r := ParseFields(Split(tokens[k], ','), parse); if r.Some? then [r.value] else [])
  {
    assert tokens[..k + 1][..k] == tokens[..k];
  }

  /** Accepting is compositional over concatenated token lists. */
  lemma {:induction false} AcceptTokensAppend(a: seq<string>, b: seq<string>, parse: string -> Option<real>)
    ensures AcceptTokens(a + b, parse) == AcceptTokens(a, parse) + AcceptTokens(b, parse)
    decreases |b|
  {
    if b != [] {
      var init := b[..|b| - 1];
      assert (a + b)[..|a + b| - 1] == a + init;
      AcceptTokensAppend(a, init, parse);
    } else {
      assert a + b == a;
    }
  }

  /** One token in the middle of a list contributes its own sample, at its
      own place, or nothing; the tokens around it are unaffected. */
  lemma AcceptTokensAt(a: seq<string>, t: string, b: seq<string>, parse: string -> Option<real>)
    ensures AcceptTokens(a + [t] + b, parse) ==
            AcceptTokens(a, parse) + Accepted(t, parse) + AcceptTokens(b, parse)
  {
    AcceptTokensAppend(a + [t], b, parse);
    AcceptTokensAppend(a, [t], parse);
    assert [t][..0] == [];
  }

  /** A skipped token leaves no trace: no sample, no placeholder. */
  lemma SkippedTokenLeavesNoTrace(a: seq<string>, t: string, b: seq<string>, parse: string -> Option<real>)
    requires ParseToken(t, parse) == None
    ensures AcceptTokens(a + [t] + b, parse) == AcceptTokens(a + b, parse)
  {
    AcceptTokensAt(a, t, b, parse);
    AcceptTokensAppend(a, b, parse);
    var left, right := AcceptTokens(a, parse), AcceptTokens(b, parse);
    assert Accepted(t, parse) == [];
    assert left + Accepted(t, parse) + right == left + right;
  }

  /** Element boundaries do not matter: the result is the accepted tokens
      of the whole document, in document order. */
  lemma {:induction false} ExtractAllFlattens(texts: seq<Option<string>>, parse: string -> Option<real>)
    ensures ExtractAll(texts, parse) == AcceptTokens(AllTokens(texts), parse)
    decreases |texts|
  {
    if texts != [] {
      var init := texts[..|texts| - 1];
      ExtractAllFlattens(init, parse);
      AcceptTokensAppend(AllTokens(init), Words(ElementText(texts[|texts| - 1])), parse);
    }
  }

  /** An element with no text, or only whitespace, contributes nothing. */
  lemma BlankElementContributesNothing(texts: seq<Option<string>>, text: Option<string>,
                                       parse: string -> Option<real>)
    requires text == None || AllSpace(text.value)
    ensures ElementCoordinates(text, parse) == []
    ensures ExtractAll(texts + [text], parse) == ExtractAll(texts, parse)
  {
    WordsEmptyIffBlank(ElementText(text));
    assert (texts + [text])[..|texts|] == texts;
  }

  /** Only the first three fields are read: appending more fields to a
      token of at least three fields changes nothing. */
  lemma ExtraFieldsIgnored(fields: seq<string>, extra: seq<string>, parse: string -> Option<real>)
    requires |fields| >= 3
    requires forall k :: 0 <= k < |fields| ==> ',' !in fields[k]
    requires forall k :: 0 <= k < |extra| ==> ',' !in extra[k]
    ensures ParseToken(Join(fields + extra, ","), parse) == ParseToken(Join(fields, ","), parse)
  {
    SplitJoin(fields, ',');
    var all := fields + extra;
    forall k | 0 <= k < |all| ensures ',' !in all[k] {
      if k >= |fields| { assert all[k] == extra[k - |fields|]; }
    }
    SplitJoin(all, ',');
    SameFirstThree(all, fields, parse);
  }

  /** Field lists that agree on their first three fields decide alike. */
  lemma SameFirstThree(p: seq<string>, q: seq<string>, parse: string -> Option<real>)
    requires |p| >= 3 && |q| >= 3
    requires p[0] == q[0] && p[1] == q[1] && p[2] == q[2]
    ensures ParseFields(p, parse) == ParseFields(q, parse)
  {
  }

  /** The fields a sample is written as: lon, lat and, when present, alt. */
  function Fields(s: Sample, fmt: real -> string): (fs: seq<string>)
    ensures |fs| == if s.alt.Some? then 3 else 2
    ensures fs[0] == fmt(s.lon) && fs[1] == fmt(s.lat)
    ensures s.alt.Some? ==> fs[2] == fmt(s.alt.value)
  {
    [fmt(s.lon), fmt(s.lat)] + (if s.alt.Some? then [fmt(s.alt.value)] else [])
  }

  /** How a sample is written back as a KML token: `lon,lat[,alt]`. */
  function Encode(s: Sample, fmt: real -> string): string {
    Join(Fields(s, fmt), ",")
  }

  /** What Python promises of `float(repr(x))` for one float `x`: the text
      reads back as `x`, and holds neither a comma nor whitespace. */
  ghost predicate RoundTrips(parse: string -> Option<real>, fmt: real -> string, x: real) {
    parse(fmt(x)) == Some(x) && ',' !in fmt(x) && NoSpace(fmt(x))
  }

  /** `RoundTrips` for every number of a sample. */
  ghost predicate SampleRoundTrips(parse: string -> Option<real>, fmt: real -> string, s: Sample) {
    RoundTrips(parse, fmt, s.lon) && RoundTrips(parse, fmt, s.lat) &&
    (s.alt.Some? ==> RoundTrips(parse, fmt, s.alt.value))
  }

  /** Writing a sample and reading the token back gives the sample. */
  lemma TokenRoundTrip(s: Sample, parse: string -> Option<real>, fmt: real -> string)
    requires parse("") == None && SampleRoundTrips(parse, fmt, s)
    ensures ParseToken(Encode(s, fmt), parse) == Some(s)
  {
    FieldsRoundTrip(s, Fields(s, fmt), parse);
  }

  /** Fields that each read back as the sample's numbers, joined with
      commas, read back as the sample. */
  lemma FieldsRoundTrip(s: Sample, fields: seq<string>, parse: string -> Option<real>)
    requires |fields| == if s.alt.Some? then 3 else 2
    requires parse(fields[0]) == Some(s.lon) && parse(fields[1]) == Some(s.lat)
    requires s.alt.Some? ==> fields[2] != "" && parse(fields[2]) == s.alt
    requires forall k :: 0 <= k < |fields| ==> ',' !in fields[k]
    ensures ParseToken(Join(fields, ","), parse) == Some(s)
  {
    SplitJoin(fields, ',');
  }

  /** An encoded sample is accepted as itself. */
  lemma AcceptedEncoded(s: Sample, parse: string -> Option<real>, fmt: real -> string)
    requires parse("") == None && SampleRoundTrips(parse, fmt, s)
    ensures Accepted(Encode(s, fmt), parse) == [s]
  {
    TokenRoundTrip(s, parse, fmt);
  }

  /** The whitespace-free strings stay so when joined with a whitespace-free separator. */
  lemma {:induction false} JoinKeepsNoSpace(xs: seq<string>, sep: string)
    requires forall k :: 0 <= k < |xs| ==> NoSpace(xs[k])
    requires NoSpace(sep)
    ensures NoSpace(Join(xs, sep))
    decreases |xs|
  {
    if |xs| > 1 {
      JoinKeepsNoSpace(xs[1..], sep);
      var tail := Join(xs[1..], sep);
      var s := xs[0] + sep + tail;
      forall i | 0 <= i < |s| ensures !IsSpace(s[i]) {
        if i < |xs[0]| { assert s[i] == xs[0][i]; }
        else if i < |xs[0]| + |sep| { assert s[i] == sep[i - |xs[0]|]; }
        else { assert s[i] == tail[i - |xs[0]| - |sep|]; }
      }
    }
  }

  /** The tokens of the samples, one after another. */
  function EncodeAll(samples: seq<Sample>, fmt: real -> string): (ts: seq<string>)
    ensures |ts| == |samples|
    ensures forall k :: 0 <= k < |ts| ==> ts[k] == Encode(samples[k], fmt)
  {
    seq(|samples|, k requires 0 <= k < |samples| => Encode(samples[k], fmt))
  }

  /** Writing samples as one `<coordinates>` text, space-separated, and
      extracting it again gives back exactly those samples, in order. */
  lemma ExtractRoundTrip(samples: seq<Sample>, parse: string -> Option<real>, fmt: real -> string)
    requires parse("") == None
    requires forall k :: 0 <= k < |samples| ==> SampleRoundTrips(parse, fmt, samples[k])
    ensures ExtractAll([Some(Join(EncodeAll(samples, fmt), " "))], parse) == samples
  {
    var tokens := EncodeAll(samples, fmt);
    forall k | 0 <= k < |tokens|
      ensures IsWord(tokens[k]) && Accepted(tokens[k], parse) == [samples[k]]
    {
      EncodeIsWord(samples[k], parse, fmt);
      AcceptedEncoded(samples[k], parse, fmt);
    }
    WordsOfJoin(tokens);
    AcceptEach(tokens, samples, parse);
    var texts := [Some(Join(tokens, " "))];
    assert texts[..0] == [];
  }

  /** An encoded sample is one `str.split()` token. */
  lemma EncodeIsWord(s: Sample, parse: string -> Option<real>, fmt: real -> string)
    requires parse("") == None && SampleRoundTrips(parse, fmt, s)
    ensures IsWord(Encode(s, fmt))
  {
    var fields := Fields(s, fmt);
    assert NoSpace(",");
    JoinKeepsNoSpace(fields, ",");
    JoinStartsWithFirst(fields, ",");
  }

  /** A join is at least as long as its first piece. */
  lemma JoinStartsWithFirst(xs: seq<string>, sep: string)
    requires |xs| >= 1
    ensures |Join(xs, sep)| >= |xs[0]|
  {
    if |xs| > 1 {
      assert Join(xs, sep) == xs[0] + sep + Join(xs[1..], sep);
    }
  }

  /** Tokens that are each accepted as one sample give those samples, in order. */
  lemma {:induction false} AcceptEach(ts: seq<string>, samples: seq<Sample>, parse: string -> Option<real>)
    requires |ts| == |samples|
    requires forall k :: 0 <= k < |ts| ==> Accepted(ts[k], parse) == [samples[k]]
    ensures AcceptTokens(ts, parse) == samples
    decreases |ts|
  {
    if ts != [] {
      var n := |ts|;
      var ts', samples' := ts[..n - 1], samples[..n - 1];
      forall k | 0 <= k < n - 1 ensures Accepted(ts'[k], parse) == [samples'[k]] {
        assert ts'[k] == ts[k] && samples'[k] == samples[k];
      }
      AcceptEach(ts', samples', parse);
      assert Accepted(ts[n - 1], parse) == [samples[n - 1]];
      assert samples' + [samples[n - 1]] == samples;
    }
  }
}
