/**
 * Amenity-list parsing and canonicalisation in `DataPreprocessor` (preprocessor.py):
 * the TF-IDF tokenizer `comma_tokenizer`, the synonym table and `map_amenities` of
 * `_compute_amenity_score`, the two splitting rules (the fit-time regex clean-up and
 * the transform-time brace strip) and the two amenity counts.
 */
module Amenities {
  import opened Text

  /** The labels that `_compute_amenity_score` folds into "Pet-Friendly". */
  const PetLabels: seq<string> :=
    ["Pets live on this property", "Pets allowed", "Dog(s)", "Cat(s)", "Other pet(s)"]

  /** The keys of `amenities_map`. */
  const SynonymKeys: set<string> :=
    {"Wireless Internet", "Dryer", "Washer", "Dishwasher", "Central Heating",
     "Pets live on this property", "Pets allowed", "Dog(s)", "Cat(s)", "Other pet(s)"}

  /** The canonical labels the synonym table produces. */
  const CanonicalTargets: set<string> := {"Internet", "Dryer/Washer", "Heating", "Pet-Friendly"}

  /** Characters removed everywhere by the fit-time clean-up `[\{\}"\']`. */
  const FitNoise: set<char> := {'{', '}', '"', '\''}

  /** Characters stripped from both ends of the string at transform time (`strip("{}")`). */
  predicate IsBrace(c: char) { c == '{' || c == '}' }

  /** The character `map_amenities` strips after the whitespace (`strip('"')`). */
  predicate IsQuote(c: char) { c == '"' }

  /** `comma_tokenizer`: the tokenizer the TF-IDF vectorizer is built with. */
  function CommaTokenizer(x: string): seq<string> {
    Split(x, ',')
  }

  /** `t` is a key of `amenities_map`. */
  predicate IsSynonym(t: string) {
    t in SynonymKeys
  }

  /** `amenities_map.get(t, t)`: each near-duplicate label goes to the label it merges into,
      every other label is returned unchanged. */
  function Lookup(t: string): string {
    if t == "Wireless Internet" then "Internet"
    else if t == "Dryer" || t == "Washer" || t == "Dishwasher" then "Dryer/Washer"
    else if t == "Central Heating" then "Heating"
    else if t in PetLabels then "Pet-Friendly"
    else t
  }

  /** One label of `map_amenities`: trim whitespace, then double quotes, then look up. */
  function Canonical(a: string): string {
    Lookup(StripChars(Strip(a), IsQuote))
  }

  /** `map_amenities`: canonicalise every label of a list. */
  function MapAmenities(xs: seq<string>): seq<string> {
    MapEach(xs, Canonical)
  }

  /** The comma-joined canonical list stored in the `amenities_str` column. */
  function AmenitiesText(items: seq<string>): string {
    Join(MapAmenities(items), ',')
  }

  /** Fit-time split (line 154): delete every brace and quote, then split on commas. */
  function SplitForFit(s: string): seq<string> {
    Split(RemoveChars(s, FitNoise), ',')
  }

  /** Transform-time split (line 285): strip braces from the ends, then split on commas. */
  function SplitForTransform(s: string): seq<string> {
    Split(StripChars(s, IsBrace), ',')
  }

  /** `n_amenities` as `fit` computes it on a string (line 218). */
  function CountForFit(s: string): nat {
    |Split(s, ',')|
  }

  /** `n_amenities` as `transform` computes it (line 286). */
  function CountForTransform(s: string): nat {
    |SplitForTransform(s)|
  }

  /** A label with nothing for `map_amenities` to trim. */
  predicate Bare(t: string) {
    t == [] || (!IsSpace(t[0]) && !IsQuote(t[0]) && !IsSpace(t[|t| - 1]) && !IsQuote(t[|t| - 1]))
  }

  // ---------------------------------------------------------------- synonym table

  /** No canonical label is itself a key. */
  lemma TargetsNotKeys()
    ensures forall t :: t in CanonicalTargets ==> !IsSynonym(t)
  {
  }

  /** Every canonical label is bare and comma-free. */
  lemma TargetsBare()
    ensures forall t :: t in CanonicalTargets ==> Bare(t) && ',' !in t
  {
  }

  /** Every pet label, and only a pet label, merges into "Pet-Friendly". */
  lemma PetLabelsMerge(t: string)
    ensures Lookup(t) == "Pet-Friendly" <==> t in PetLabels || t == "Pet-Friendly"
    ensures t in PetLabels ==> IsSynonym(t)
  {
  }

  /** Labels outside the table pass through, keys become canonical labels, and looking a
      result up again is a no-op. */
  lemma LookupIdempotent(t: string)
    ensures !IsSynonym(t) ==> Lookup(t) == t
    ensures IsSynonym(t) ==> Lookup(t) in CanonicalTargets
    ensures Lookup(Lookup(t)) == Lookup(t)
  {
    if IsSynonym(t) {
      assert Lookup(t) in CanonicalTargets;
      TargetsNotKeys();
    } else {
      assert Lookup(t) == t;
    }
  }

  /** Canonicalising a bare label is just the table lookup. */
  lemma CanonicalOfBare(t: string)
    requires Bare(t)
    ensures Canonical(t) == Lookup(t)
  {
    StripCharsNoop(t, IsSpace);
    StripCharsNoop(t, IsQuote);
  }

  /** The canonical labels are bare, so canonicalising the output again changes nothing
      whenever the label before lookup was bare. */
  lemma CanonicalStable(a: string)
    requires Bare(StripChars(Strip(a), IsQuote))
    ensures Bare(Canonical(a))
    ensures Canonical(Canonical(a)) == Canonical(a)
  {
    var t := StripChars(Strip(a), IsQuote);
    LookupIdempotent(t);
    TargetsBare();
    CanonicalOfBare(Canonical(a));
  }

  /** The quoted example has no surrounding whitespace. */
  lemma QuotedPaddedStrip()
    ensures Strip("\" Dryer\"") == "\" Dryer\""
  {
    StripCharsNoop("\" Dryer\"", IsSpace);
  }

  /** Unquoting the example leaves its inner space. */
  lemma QuotedPaddedUnquote()
    ensures StripChars("\" Dryer\"", IsQuote) == " Dryer"
  {
    StripCharsOuter('"', " Dryer", '"', IsQuote);
    assert [('"')] + " Dryer" + [('"')] == "\" Dryer\"";
  }

  /** The padded label is not a key, so the lookup returns it unchanged. */
  lemma PaddedNotKey()
    ensures Lookup(" Dryer") == " Dryer"
  {
    assert !IsSynonym(" Dryer");
  }

  /** A quoted label with inner padding keeps the padding after one pass. */
  lemma CanonicalKeepsInnerPadding()
    ensures Canonical("\" Dryer\"") == " Dryer"
  {
    QuotedPaddedStrip();
    QuotedPaddedUnquote();
    PaddedNotKey();
  }

  /** Trimming the padded example leaves the key. */
  lemma PaddedStrip()
    ensures Strip(" Dryer") == "Dryer"
  {
    var k := "Dryer";
    assert !IsSpace(k[0]) && !IsSpace(k[|k| - 1]);
    assert StripLeft(k, IsSpace) == k;
    assert StripLeft([' '] + k, IsSpace) == k by {
      assert ([' '] + k)[1..] == k;
    }
    assert [' '] + k == " Dryer";
    StripCharsNoop(k, IsSpace);
  }

  /** The key has no quotes to strip. */
  lemma KeyUnquoted()
    ensures StripChars("Dryer", IsQuote) == "Dryer"
  {
    StripCharsNoop("Dryer", IsQuote);
  }

  /** A padded key is trimmed and looked up. */
  lemma CanonicalTrimsPadding()
    ensures Canonical(" Dryer") == "Dryer/Washer"
  {
    PaddedStrip();
    KeyUnquoted();
  }

  /** Canonicalisation is NOT idempotent in general: a quoted label with inner padding
      keeps the padding after one pass and loses it, and is looked up, in the next. */
  lemma CanonicalNotIdempotent()
    ensures Canonical(Canonical("\" Dryer\"")) != Canonical("\" Dryer\"")
  {
    CanonicalKeepsInnerPadding();
    CanonicalTrimsPadding();
  }

  /** Canonicalising never introduces a comma. */
  lemma CanonicalNoComma(a: string)
    requires ',' !in a
    ensures ',' !in Canonical(a)
  {
    StripCharsNoneOf(a, IsSpace, {','});
    StripCharsNoneOf(Strip(a), IsQuote, {','});
    var t := StripChars(Strip(a), IsQuote);
    LookupIdempotent(t);
    TargetsBare();
  }

  /** `map_amenities` keeps length and order, canonicalising label by label. */
  lemma MapAmenitiesLabelwise(xs: seq<string>, ys: seq<string>)
    ensures |MapAmenities(xs)| == |xs|
    ensures MapAmenities(xs + ys) == MapAmenities(xs) + MapAmenities(ys)
  {
    MapEachConcat(xs, ys, Canonical);
  }

  /** The vectorizer's tokenizer recovers the canonical list from the `amenities_str` text. */
  lemma TokenizerRecoversCanonical(items: seq<string>)
    requires |items| >= 1
    requires forall i :: 0 <= i < |items| ==> ',' !in items[i]
    ensures CommaTokenizer(AmenitiesText(items)) == MapAmenities(items)
  {
    var m := MapAmenities(items);
    forall i | 0 <= i < |m| ensures ',' !in m[i] {
      CanonicalNoComma(items[i]);
    }
    SplitJoin(m, ',');
  }

  /** Every label obtained by either split is free of commas. */
  lemma SplitsHaveNoComma(s: string)
    ensures forall i :: 0 <= i < |SplitForFit(s)| ==> ',' !in SplitForFit(s)[i]
    ensures forall i :: 0 <= i < |SplitForTransform(s)| ==> ',' !in SplitForTransform(s)[i]
  {
  }

  // ---------------------------------------------------------------- counts

  /** The transform-time count is one more than the number of commas between the braces,
      so it is never 0 and an empty (or "{}") amenities string counts as one amenity. */
  lemma CountForTransformValue(s: string)
    ensures CountForTransform(s) == Count(StripChars(s, IsBrace), ',') + 1
    ensures CountForTransform(s) >= 1
    ensures CountForTransform("") == 1 && CountForTransform("{}") == 1
  {
    assert StripChars("{}", IsBrace) == "" by {
      assert "{}"[1..] == "}";
      assert "}"[1..] == "";
    }
  }
}
