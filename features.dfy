/**
 * The fixed tables of `DataPreprocessor.__init__` (preprocessor.py:56-105) and the
 * row-level feature rules of `transform` that use them: the ordinal encodings, the
 * boolean encoding, the luxury-policy flag, the city scores, the distance guard and the
 * text-score guards.
 */
module Features {
  import opened Wrappers
  import opened Text
  import opened Frames

  // ---------------------------------------------------------------- ordinal encodings

  const RoomTypes: map<string, real> :=
    map["Private room" := 0.0, "Entire home/apt" := 1.0, "Shared room" := 2.0]

  const BedTypes: map<string, real> :=
    map["Real Bed" := 5.0, "Futon" := 4.0, "Pull-out Sofa" := 3.0, "Airbed" := 2.0, "Couch" := 1.0]

  /** The cancellation policies from most flexible to strictest. */
  const Policies: seq<string> := ["flexible", "moderate", "strict", "super_strict_30", "super_strict_60"]

  const CancellationS: map<string, real> :=
    map["flexible" := 0.0, "moderate" := 0.33, "strict" := 0.66,
        "super_strict_30" := 0.83, "super_strict_60" := 1.0]

  const CancellationF: map<string, real> :=
    map["flexible" := 1.0, "moderate" := 0.66, "strict" := 0.33,
        "super_strict_30" := 0.16, "super_strict_60" := 0.0]

  /** The keys of `encoders["mapping"]`, in their order. */
  const EncoderNames: seq<string> :=
    ["room_type", "bed_type", "cancellation_policy_map_s", "cancellation_policy_map_f"]

  /** `encoders["mapping"][name]`. */
  function Encoder(name: string): map<string, real>
    requires name in EncoderNames
  {
    if name == "room_type" then RoomTypes
    else if name == "bed_type" then BedTypes
    else if name == "cancellation_policy_map_s" then CancellationS
    else CancellationF
  }

  /** `Series.map(mapping)` for one cell: a key's value, NaN for anything else. */
  function MapEncode(m: map<string, real>, c: Cell): (r: Cell)
    ensures r.Num? <==> c.Text? && c.s in m
    ensures r.Num? ==> r.x == m[c.s]
    ensures !r.Num? ==> r == Missing
  {
    if c.Text? && c.s in m then Num(m[c.s]) else Missing
  }

  /** The room types are coded 0, 1, 2, one type per code. */
  lemma RoomTypeCodes()
    ensures RoomTypes.Values == {0.0, 1.0, 2.0}
    ensures forall a, b :: a in RoomTypes && b in RoomTypes && RoomTypes[a] == RoomTypes[b] ==> a == b
  {
    assert RoomTypes["Private room"] == 0.0 && RoomTypes["Entire home/apt"] == 1.0;
    assert RoomTypes["Shared room"] == 2.0;
  }

  /** The bed types are coded 1 to 5, one type per code. */
  lemma BedTypeCodes()
    ensures BedTypes.Values == {1.0, 2.0, 3.0, 4.0, 5.0}
    ensures forall a, b :: a in BedTypes && b in BedTypes && BedTypes[a] == BedTypes[b] ==> a == b
  {
    assert BedTypes["Real Bed"] == 5.0 && BedTypes["Futon"] == 4.0;
    assert BedTypes["Pull-out Sofa"] == 3.0 && BedTypes["Airbed"] == 2.0 && BedTypes["Couch"] == 1.0;
  }

  /** Both cancellation scales are keyed by exactly the five policies. */
  lemma CancellationKeys()
    ensures CancellationS.Keys == CancellationF.Keys
    ensures forall p :: p in CancellationS <==> p in Policies
  {
  }

  /** A scale's values read along the policies, from flexible to strictest. */
  function Along(m: map<string, real>): (r: seq<real>)
    requires forall p :: p in Policies ==> p in m
    ensures |r| == |Policies| && forall i :: 0 <= i < |Policies| ==> r[i] == m[Policies[i]]
  {
    seq(|Policies|, i requires 0 <= i < |Policies| => m[Policies[i]])
  }

  lemma AlongS()
    ensures forall p :: p in Policies ==> p in CancellationS
    ensures Along(CancellationS) == [0.0, 0.33, 0.66, 0.83, 1.0]
  {
    CancellationKeys();
  }

  lemma AlongF()
    ensures forall p :: p in Policies ==> p in CancellationF
    ensures Along(CancellationF) == [1.0, 0.66, 0.33, 0.16, 0.0]
  {
    CancellationKeys();
  }

  /** Along the policies from flexible to strictest, `_s` never decreases and `_f` never
      increases; flexible is 0.0 on `_s` and 1.0 on `_f`. */
  lemma CancellationMonotone()
    ensures forall p :: p in Policies ==> p in CancellationS && p in CancellationF
    ensures forall i, j :: 0 <= i <= j < |Policies| ==>
      Along(CancellationS)[i] <= Along(CancellationS)[j] && Along(CancellationF)[i] >= Along(CancellationF)[j]
    ensures CancellationS["flexible"] == 0.0 && CancellationF["flexible"] == 1.0
  {
    AlongS();
    AlongF();
    assert Policies[0] == "flexible";
  }

  /** Mapping a room-type or bed-type cell gives its code, and any other value becomes NaN. */
  lemma EncodeRange(c: Cell)
    ensures MapEncode(RoomTypes, c).Num? ==> MapEncode(RoomTypes, c).x in {0.0, 1.0, 2.0}
    ensures MapEncode(BedTypes, c).Num? ==> 1.0 <= MapEncode(BedTypes, c).x <= 5.0
    ensures !c.Text? ==> MapEncode(RoomTypes, c) == Missing && MapEncode(BedTypes, c) == Missing
  {
    RoomTypeCodes();
    BedTypeCodes();
    if c.Text? && c.s in RoomTypes {
      assert RoomTypes[c.s] in RoomTypes.Values;
    }
    if c.Text? && c.s in BedTypes {
      assert BedTypes[c.s] in BedTypes.Values;
    }
  }

  // ---------------------------------------------------------------- booleans and flags

  /** The boolean columns, in order. */
  const BoolCols: seq<string> := ["host_has_profile_pic", "host_identity_verified", "instant_bookable"]

  /** The keys `bool_encoders` holds once every boolean column is fitted. */
  const BoolKeys: set<string> := set c | c in BoolCols

  /** The fitted `OrdinalEncoder(categories=[["f", "t"]], unknown_value=-1)` on one cell. */
  function BoolEncode(c: Cell): (r: Cell)
    ensures r.Num? && r.x in {-1.0, 0.0, 1.0}
    ensures r.x == 0.0 <==> c == Text("f")
    ensures r.x == 1.0 <==> c == Text("t")
  {
    if c == Text("f") then Num(0.0) else if c == Text("t") then Num(1.0) else Num(-1.0)
  }

  /** `luxury_policy_flag` of one row: 1 for the two super-strict policies, 0 otherwise. */
  function LuxuryFlag(c: Cell): (r: Cell)
    ensures r == Num(1.0) <==> c.Text? && c.s in Policies[3..]
    ensures r == Num(0.0) || r == Num(1.0)
  {
    if c == Text("super_strict_30") || c == Text("super_strict_60") then Num(1.0) else Num(0.0)
  }

  /** The luxury flag marks exactly the policies whose `_s` score is above 0.8. */
  lemma LuxuryFlagIsStrictEnd(p: string)
    requires p in Policies
    ensures LuxuryFlag(Text(p)) == Num(1.0) <==> CancellationS[p] > 0.8
  {
    CancellationKeys();
  }

  // ---------------------------------------------------------------- cities

  const CitySentiment: map<string, real> :=
    map["NYC" := 0.75, "LA" := 0.78, "SF" := 0.85, "DC" := 0.73, "Chicago" := 0.60, "Boston" := 0.90]

  const CityExpenseWorth: map<string, real> :=
    map["NYC" := 0.55, "LA" := 0.58, "SF" := 0.50, "DC" := 0.78, "Chicago" := 0.72, "Boston" := 0.75]

  const CityCenters: map<string, (real, real)> :=
    map["NYC" := (40.7549, -73.984), "LA" := (34.0557, -118.2488), "SF" := (37.7876, -122.4066),
        "DC" := (38.9037, -77.0363), "Chicago" := (41.8757, -87.6243), "Boston" := (42.3555, -71.0565)]

  /** The six cities of the tables. */
  const Cities: set<string> := {"NYC", "LA", "SF", "DC", "Chicago", "Boston"}

  lemma SentimentCities()
    ensures CitySentiment.Keys == Cities
    ensures forall c :: c in CitySentiment ==> 0.0 < CitySentiment[c] < 1.0
  {
  }

  lemma ExpenseCities()
    ensures CityExpenseWorth.Keys == Cities
    ensures forall c :: c in CityExpenseWorth ==> 0.0 < CityExpenseWorth[c] < 1.0
  {
  }

  lemma CenterCities()
    ensures CityCenters.Keys == Cities
  {
  }

  /** The three city tables cover the same cities, and both scores lie in (0, 1). */
  lemma CityTablesAgree()
    ensures CitySentiment.Keys == CityExpenseWorth.Keys == CityCenters.Keys
    ensures forall c :: c in CitySentiment ==> 0.0 < CitySentiment[c] < 1.0 && 0.0 < CityExpenseWorth[c] < 1.0
  {
    SentimentCities();
    ExpenseCities();
    CenterCities();
  }

  /** `compute_distance` of one row: NaN for a city without a center; otherwise the
      haversine distance from the row's coordinates, which are read only in that case and
      raise a KeyError when their column is absent. */
  function Distance(haversine: (Cell, Cell, real, real) -> Cell, city: Cell,
                    lat: Option<Cell>, lon: Option<Cell>): (r: Result<Cell>)
    ensures !(city.Text? && city.s in CityCenters) ==> r == Ok(Missing)
    ensures city.Text? && city.s in CityCenters ==>
      (r.Err? <==> lat.None? || lon.None?)
      && (r.Ok? ==> r.value == haversine(lat.value, lon.value, CityCenters[city.s].0, CityCenters[city.s].1))
  {
    if city.Text? && city.s in CityCenters then
      if lat.None? then Err(KeyError("latitude"))
      else if lon.None? then Err(KeyError("longitude"))
      else Ok(haversine(lat.value, lon.value, CityCenters[city.s].0, CityCenters[city.s].1))
    else Ok(Missing)
  }

  // ---------------------------------------------------------------- description scores

  /** `compute_sentiment`: 0 for a non-string or blank description, else VADER's compound
      polarity (the parameter `polarity`). */
  function Sentiment(polarity: string -> real, c: Cell): (r: real)
    ensures !c.Text? || Strip(c.s) == [] ==> r == 0.0
    ensures c.Text? && Strip(c.s) != [] ==> r == polarity(c.s)
  {
    if !c.Text? || Strip(c.s) == [] then 0.0 else polarity(c.s)
  }

  /** `compute_obj`: 0 for a non-string description, else one minus TextBlob's
      subjectivity (the parameter `subjectivity`). */
  function Objectivity(subjectivity: string -> real, c: Cell): (r: real)
    ensures !c.Text? ==> r == 0.0
    ensures c.Text? ==> r == 1.0 - subjectivity(c.s)
  {
    if !c.Text? then 0.0 else 1.0 - subjectivity(c.s)
  }

  /** `combine_sentiment_subjectivity` with its default weights 0.7 and 0.3. */
  function DescriptionScore(sentiment: real, objectivity: real): real {
    0.7 * ((sentiment + 1.0) / 2.0) + 0.3 * objectivity
  }

  /** For a polarity in [-1, 1] and an objectivity in [0, 1] the score lies in [0, 1], and
      it grows with each of them. */
  lemma DescriptionScoreRange(s: real, o: real, s2: real, o2: real)
    requires -1.0 <= s <= 1.0 && 0.0 <= o <= 1.0
    ensures 0.0 <= DescriptionScore(s, o) <= 1.0
    ensures s <= s2 && o <= o2 ==> DescriptionScore(s, o) <= DescriptionScore(s2, o2)
  {
  }
}
