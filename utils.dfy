/**
 * `format_amenities_from_string` (utils.py): turn a comma-separated list typed by a user
 * into the brace-and-quote amenities text of the training data, and the round trips of
 * that text through the preprocessor's two splitting rules.
 */
module Utils {
  import opened Wrappers
  import opened Text
  import opened Frames
  import opened Amenities

  /** `[a.strip() for a in parts if a.strip()]`. */
  function TrimmedNonEmpty(parts: seq<string>): (r: seq<string>)
    ensures |r| <= |parts|
    ensures forall i :: 0 <= i < |r| ==> r[i] != [] && Strip(r[i]) == r[i]
  {
    if parts == [] then []
    else
      var t := Strip(parts[0]);
      StripCharsIdempotent(parts[0], IsSpace);
      (if t != [] then [t] else []) + TrimmedNonEmpty(parts[1..])
  }

  /** The amenity names of a user's text: the whitespace-trimmed, non-empty comma-separated
      pieces, in input order. */
  function Tokens(s: string): seq<string> {
    TrimmedNonEmpty(Split(s, ','))
  }

  /** `f'"{a}"'`. */
  function Quote(a: string): string {
    ['"'] + a + ['"']
  }

  /** The quoted names, comma-joined without spaces, inside braces. */
  function Formatted(ts: seq<string>): (r: string)
    ensures |r| >= 2 && r[0] == '{' && r[|r| - 1] == '}'
  {
    ['{'] + Join(MapEach(ts, Quote), ',') + ['}']
  }

  /** `format_amenities_from_string`: a ValueError unless the input is a str; otherwise the
      formatted tokens. */
  function FormatAmenities(x: Cell): (r: Result<string>)
    ensures r.Err? <==> !x.Text?
    ensures r.Err? ==> r.error == ValueError
    ensures r.Ok? ==> |r.value| >= 2 && r.value[0] == '{' && r.value[|r.value| - 1] == '}'
  {
    if !x.Text? then Err(ValueError) else Ok(Formatted(Tokens(x.s)))
  }

  /** An empty list is formatted as "{}". */
  lemma FormattedEmpty()
    ensures Formatted([]) == "{}"
  {
    assert MapEach([], Quote) == [];
  }

  /** A comma or a whitespace character. */
  predicate IsSpaceOrComma(c: char) {
    c == ',' || IsSpace(c)
  }

  // ---------------------------------------------------------------- tokens

  /** Every token is non-empty, trimmed and free of commas and of any character the input
      lacks. */
  lemma TokensShape(s: string, bad: set<char>)
    requires NoneOf(s, bad)
    ensures forall i :: 0 <= i < |Tokens(s)| ==>
      Tokens(s)[i] != [] && Strip(Tokens(s)[i]) == Tokens(s)[i]
      && ',' !in Tokens(s)[i] && NoneOf(Tokens(s)[i], bad)
  {
    SplitNoneOf(s, ',', bad);
    TrimmedShape(Split(s, ','), bad);
  }

  lemma {:induction false} TrimmedShape(parts: seq<string>, bad: set<char>)
    requires forall i :: 0 <= i < |parts| ==> ',' !in parts[i] && NoneOf(parts[i], bad)
    ensures forall i :: 0 <= i < |TrimmedNonEmpty(parts)| ==>
      ',' !in TrimmedNonEmpty(parts)[i] && NoneOf(TrimmedNonEmpty(parts)[i], bad)
  {
    if parts != [] {
      TrimmedShape(parts[1..], bad);
      StripCharsNoneOf(parts[0], IsSpace, bad);
      StripCharsNoneOf(parts[0], IsSpace, {','});
      assert forall i :: 0 <= i < |parts[0]| ==> parts[0][i] !in {','};
    }
  }

  /** A blank or comma-only input has no tokens, so it is formatted as "{}". */
  lemma BlankFormatsEmpty(s: string)
    requires forall i :: 0 <= i < |s| ==> IsSpaceOrComma(s[i])
    ensures Tokens(s) == []
    ensures FormatAmenities(Text(s)) == Ok("{}")
  {
    SplitAll(s, ',', IsSpace);
    BlankPiecesVanish(Split(s, ','));
    FormattedEmpty();
  }

  lemma {:induction false} BlankPiecesVanish(parts: seq<string>)
    requires forall i :: 0 <= i < |parts| ==> All(parts[i], IsSpace)
    ensures TrimmedNonEmpty(parts) == []
  {
    if parts != [] {
      StripCharsAll(parts[0], IsSpace);
      BlankPiecesVanish(parts[1..]);
    }
  }

  /** Tokenising a comma-join of trimmed, non-empty, comma-free names gives them back. */
  lemma TokensOfJoin(ws: seq<string>)
    requires |ws| >= 1
    requires forall i :: 0 <= i < |ws| ==> ws[i] != [] && Strip(ws[i]) == ws[i] && ',' !in ws[i]
    ensures Tokens(Join(ws, ',')) == ws
  {
    SplitJoin(ws, ',');
    TrimmedOfTrimmed(ws);
  }

  lemma {:induction false} TrimmedOfTrimmed(ws: seq<string>)
    requires forall i :: 0 <= i < |ws| ==> ws[i] != [] && Strip(ws[i]) == ws[i]
    ensures TrimmedNonEmpty(ws) == ws
  {
    if ws != [] {
      TrimmedOfTrimmed(ws[1..]);
      assert ws == [ws[0]] + ws[1..];
    }
  }

  // ---------------------------------------------------------------- quoted join

  /** The comma-join of quoted names starts and ends with a double quote. */
  lemma {:induction false} QuotedJoinEnds(ts: seq<string>)
    requires |ts| >= 1
    ensures var j := Join(MapEach(ts, Quote), ','); |j| >= 2 && j[0] == '"' && j[|j| - 1] == '"'
  {
    var q := MapEach(ts, Quote);
    if |ts| > 1 {
      QuotedJoinEnds(ts[1..]);
      assert q[1..] == MapEach(ts[1..], Quote);
    }
  }

  /** Deleting braces and quotes from the comma-join of quoted names that contain none of
      them leaves the plain comma-join. */
  lemma {:induction false} RemoveNoiseOfQuotedJoin(ts: seq<string>)
    requires forall i :: 0 <= i < |ts| ==> NoneOf(ts[i], FitNoise)
    ensures RemoveChars(Join(MapEach(ts, Quote), ','), FitNoise) == Join(ts, ',')
  {
    if ts != [] {
      var q0 := Quote(ts[0]);
      assert RemoveChars(q0, FitNoise) == ts[0] by {
        RemoveCharsConcat(['"'] + ts[0], ['"'], FitNoise);
        RemoveCharsConcat(['"'], ts[0], FitNoise);
        RemoveCharsNoop(ts[0], FitNoise);
      }
      if |ts| > 1 {
        var q := MapEach(ts, Quote);
        assert q[1..] == MapEach(ts[1..], Quote);
        RemoveNoiseOfQuotedJoin(ts[1..]);
        RemoveCharsConcat(q0 + [','], Join(q[1..], ','), FitNoise);
        RemoveCharsConcat(q0, [','], FitNoise);
      }
    }
  }

  /** Splitting the comma-join of quoted comma-free names gives the quoted names. */
  lemma SplitQuotedJoin(ts: seq<string>)
    requires |ts| >= 1
    requires forall i :: 0 <= i < |ts| ==> ',' !in ts[i]
    ensures Split(Join(MapEach(ts, Quote), ','), ',') == MapEach(ts, Quote)
  {
    var q := MapEach(ts, Quote);
    forall i | 0 <= i < |q| ensures ',' !in q[i] {
      assert q[i] == ['"'] + ts[i] + ['"'];
    }
    SplitJoin(q, ',');
  }

  // ---------------------------------------------------------------- round trips

  /** Deleting braces and quotes from a formatted list of names that contain none of them
      and splitting on commas gives the names back. */
  lemma FitSplitOfFormatted(ts: seq<string>)
    requires |ts| >= 1
    requires forall i :: 0 <= i < |ts| ==> ',' !in ts[i] && NoneOf(ts[i], FitNoise)
    ensures SplitForFit(Formatted(ts)) == ts
  {
    var j := Join(MapEach(ts, Quote), ',');
    assert RemoveChars(Formatted(ts), FitNoise) == Join(ts, ',') by {
      RemoveCharsConcat(['{'] + j, ['}'], FitNoise);
      RemoveCharsConcat(['{'], j, FitNoise);
      RemoveNoiseOfQuotedJoin(ts);
    }
    SplitJoin(ts, ',');
  }

  /** Fit-time round trip (preprocessor.py:154): deleting braces and quotes from the
      formatted text and splitting on commas recovers the tokens, provided there is at least
      one token and the input holds none of the deleted characters. */
  lemma FitSplitRecoversTokens(s: string)
    requires NoneOf(s, FitNoise) && Tokens(s) != []
    ensures FormatAmenities(Text(s)).Ok?
    ensures SplitForFit(FormatAmenities(Text(s)).value) == Tokens(s)
  {
    TokensShape(s, FitNoise);
    FitSplitOfFormatted(Tokens(s));
  }

  /** The brace strip of transform time removes exactly the outer braces of a formatted
      non-empty list. */
  lemma BraceStripOfFormatted(ts: seq<string>)
    requires |ts| >= 1
    ensures StripChars(Formatted(ts), IsBrace) == Join(MapEach(ts, Quote), ',')
  {
    var j := Join(MapEach(ts, Quote), ',');
    QuotedJoinEnds(ts);
    StripCharsOuter('{', j, '}', IsBrace);
  }

  /** A trimmed, non-empty name without double quotes canonicalises the same with or
      without the quotes the formatter adds. */
  lemma CanonicalOfQuoted(t: string)
    requires t != [] && Strip(t) == t && '"' !in t
    ensures Canonical(Quote(t)) == Canonical(t)
  {
    var q := Quote(t);
    StripCharsNoop(q, IsSpace);
    StripCharsOuter('"', t, '"', IsQuote);
    StripCharsNoop(t, IsQuote);
  }

  /** Transform-time parse of a formatted non-empty list of trimmed names without commas
      or double quotes: canonicalising the pieces gives the canonical names. */
  lemma TransformSplitOfFormatted(ts: seq<string>)
    requires |ts| >= 1
    requires forall i :: 0 <= i < |ts| ==>
      ts[i] != [] && Strip(ts[i]) == ts[i] && ',' !in ts[i] && '"' !in ts[i]
    ensures MapAmenities(SplitForTransform(Formatted(ts))) == MapAmenities(ts)
  {
    BraceStripOfFormatted(ts);
    SplitQuotedJoin(ts);
    var q := MapEach(ts, Quote);
    forall i | 0 <= i < |ts| ensures Canonical(q[i]) == Canonical(ts[i]) {
      CanonicalOfQuoted(ts[i]);
    }
  }

  /** Transform-time round trip (preprocessor.py:285 then `map_amenities`): stripping the
      braces, splitting on commas and canonicalising gives the canonical tokens, for an
      input with at least one token and no double quotes. */
  lemma TransformSplitRecoversTokens(s: string)
    requires '"' !in s && Tokens(s) != []
    ensures FormatAmenities(Text(s)).Ok?
    ensures MapAmenities(SplitForTransform(FormatAmenities(Text(s)).value)) == MapAmenities(Tokens(s))
  {
    var ts := Tokens(s);
    assert NoneOf(s, {'"'});
    TokensShape(s, {'"'});
    forall i | 0 <= i < |ts| ensures '"' !in ts[i] {
      assert NoneOf(ts[i], {'"'});
    }
    TransformSplitOfFormatted(ts);
  }

  /** Both amenity counts of a formatted list of comma-free names: its length, or 1 when it
      is empty. */
  lemma CountsOfFormatted(ts: seq<string>)
    requires forall i :: 0 <= i < |ts| ==> ',' !in ts[i]
    ensures CountForTransform(Formatted(ts)) == if ts == [] then 1 else |ts|
    ensures CountForFit(Formatted(ts)) == if ts == [] then 1 else |ts|
  {
    var f := Formatted(ts);
    if ts == [] {
      FormattedEmpty();
      CountForTransformValue(f);
      SplitNoSeparator(f, ',');
    } else {
      BraceStripOfFormatted(ts);
      SplitQuotedJoin(ts);
      var j := Join(MapEach(ts, Quote), ',');
      assert Count(f, ',') == Count(j, ',') by {
        CountConcat(['{'] + j, ['}'], ',');
        CountConcat(['{'], j, ',');
      }
    }
  }

  /** `n_amenities` of a formatted text, as both `fit` (line 218) and `transform`
      (line 286) count it: the number of tokens, or 1 when there are none. */
  lemma CountOfFormatted(s: string)
    ensures FormatAmenities(Text(s)).Ok?
    ensures CountForTransform(FormatAmenities(Text(s)).value) == if Tokens(s) == [] then 1 else |Tokens(s)|
    ensures CountForFit(FormatAmenities(Text(s)).value) == if Tokens(s) == [] then 1 else |Tokens(s)|
  {
    TokensShape(s, {});
    CountsOfFormatted(Tokens(s));
  }
}
