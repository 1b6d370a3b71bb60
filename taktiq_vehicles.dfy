/** The vehicle order record exchanged with the sequencing service
    (api/TaktiqVehicles.java): order number, series number, model,
    description, a list of scheduled dates and a list of feature codes. */
module TaktiqVehicles {
  import opened Wrappers
  import opened Json

  const OrderNumberKey := "orderNumber"
  const ModelKey := "model"
  const DescriptionKey := "description"
  const FeaturesKey := "features"
  const DatesKey := "dates"
  const DateKey := "date"
  const LocationKey := "location"
  const TypeKey := "type"

  /** `DateEntry`: one scheduled event; each part may be null. */
  datatype DateEntry = DateEntry(date: Option<string>, location: Option<string>, kind: Option<string>)

  /** The abstract value of a record: its six fields, the lists by content. */
  datatype VehicleState = VehicleState(
    orderNumber: Option<string>,
    model: Option<string>,
    description: Option<string>,
    seriesNumber: Option<string>,
    dates: seq<DateEntry>,
    features: seq<Option<string>>)

  /** A record as the no-argument constructor leaves it. */
  const Blank := VehicleState(None, None, None, None, [], [])

  /** The record's invariant that `setOrderNumber` keeps: it accepts only a
      nine-character order number and sets the series number to its first
      four characters, and both are unset together. */
  ghost predicate SeriesConsistent(s: VehicleState) {
    && (s.orderNumber.None? <==> s.seriesNumber.None?)
    && (s.orderNumber.Some? ==>
          |s.orderNumber.value| == 9 && s.seriesNumber.value == s.orderNumber.value[..4])
  }

  /** What `setOrderNumber` does to the record. */
  function AcceptOrderNumber(s: VehicleState, o: Option<string>): VehicleState {
    if o.Some? && |o.value| == 9 then s.(orderNumber := o, seriesNumber := Some(o.value[..4])) else s
  }

  /** `setOrderNumber` keeps the intended invariant, and a nine-character
      number always leaves a four-character series number behind. */
  lemma AcceptOrderNumberKeepsSeries(s: VehicleState, o: Option<string>)
    requires SeriesConsistent(s)
    ensures SeriesConsistent(AcceptOrderNumber(s, o))
    ensures o.Some? && |o.value| == 9 ==>
              AcceptOrderNumber(s, o).seriesNumber == Some(o.value[..4]) &&
              |AcceptOrderNumber(s, o).seriesNumber.value| == 4
    ensures !(o.Some? && |o.value| == 9) ==> AcceptOrderNumber(s, o) == s
  {
  }

  /** A mutable `java.util.List<String>`: a list object that several owners
      may share by reference. */
  class StringList {
    var elems: seq<Option<string>>

    constructor ()
      ensures elems == []
    {
      elems := [];
    }

    /** `List.add`. */
    method Add(x: Option<string>)
      modifies this
      ensures elems == old(elems) + [x]
    {
      elems := elems + [x];
    }
  }

  class TaktiqVehicle {
    var orderNumber: Option<string>
    var model: Option<string>
    var description: Option<string>
    var seriesNumber: Option<string>
    var datesList: seq<DateEntry>
    var featuresList: StringList

    function State(): VehicleState
      reads this, featuresList
    {
      VehicleState(orderNumber, model, description, seriesNumber, datesList, featuresList.elems)
    }

    /** The default constructor: both lists new and empty. */
    constructor ()
      ensures State() == Blank
      ensures fresh(featuresList)
    {
      orderNumber, model, description, seriesNumber := None, None, None, None;
      datesList := [];
      featuresList := new StringList();
    }

    /** `setOrderNumber`: accepted only when non-null and nine characters long. */
    method SetOrderNumber(o: Option<string>)
      modifies this
      ensures featuresList == old(featuresList)
      ensures State() == AcceptOrderNumber(old(State()), o)
    {
      if o.Some? && |o.value| == 9 {
        orderNumber := o;
        seriesNumber := Some(o.value[..4]);
      }
    }

    method SetModel(m: Option<string>)
      modifies this
      ensures featuresList == old(featuresList)
      ensures State() == old(State()).(model := m)
    {
      model := m;
    }

    method SetDescription(d: Option<string>)
      modifies this
      ensures featuresList == old(featuresList)
      ensures State() == old(State()).(description := d)
    {
      description := d;
    }

    /** `setFeaturesList`: appends the record's own series number (possibly
        null) to the CALLER's list object and then keeps that very object. */
    method SetFeaturesList(l: StringList)
      modifies this, l
      ensures featuresList == l
      ensures l.elems == old(l.elems) + [old(seriesNumber)]
      ensures State() == old(State()).(features := old(l.elems) + [old(seriesNumber)])
    {
      l.Add(seriesNumber);
      featuresList := l;
    }

    /** `addDate`: appends exactly one entry at the end. */
    method AddDate(date: Option<string>, location: Option<string>, kind: Option<string>)
      modifies this
      ensures featuresList == old(featuresList)
      ensures State() == old(State()).(dates := old(State()).dates + [DateEntry(date, location, kind)])
    {
      datesList := datesList + [DateEntry(date, location, kind)];
    }

    /** `loadVehicleFromJson`, on the already parsed JSON value. It updates the
        record step by step, so a cast that throws half-way leaves the earlier
        steps done; `LoadSpec` states both the new record and the outcome. */
    method LoadVehicleFromJson(j: Json) returns (outcome: Outcome)
      modifies this, featuresList
      ensures featuresList == old(featuresList)
      ensures Loaded(State(), outcome) == LoadSpec(old(State()), j)
    {
      if !j.JObj? {
        return Fail(Parse);
      }
      var m := j.fields;
      var on := AsText(Get(m, OrderNumberKey));
      if on.Err? {
        return Fail(on.error);
      }
      orderNumber := on.value;
      var md := AsText(Get(m, ModelKey));
      if md.Err? {
        return Fail(md.error);
      }
      model := md.value;
      var ds := AsText(Get(m, DescriptionKey));
      if ds.Err? {
        return Fail(ds.error);
      }
      description := ds.value;
      if DatesKey in m {
        var arr := AsIterableArray(m[DatesKey]);
        if arr.Err? {
          return Fail(arr.error);
        }
        outcome := AppendDates(arr.value);
        if outcome.Fail? {
          return;
        }
      }
      if FeaturesKey in m {
        var arr := AsIterableArray(m[FeaturesKey]);
        if arr.Err? {
          return Fail(arr.error);
        }
        AppendFeatures(arr.value);
      }
      return Pass;
    }

    /** The "dates" loop of `loadVehicleFromJson`: entries are appended one
        by one until an element fails its cast. */
    method AppendDates(es: seq<Json>) returns (outcome: Outcome)
      modifies this
      ensures featuresList == old(featuresList)
      ensures outcome == DecodeDates(es).1
      ensures State() == old(State()).(dates := old(State()).dates + DecodeDates(es).0)
    {
      var i := 0;
      while i < |es|
        invariant 0 <= i <= |es|
        invariant featuresList == old(featuresList)
        invariant DecodeDates(es[..i]).1 == Pass
        invariant State() == old(State()).(dates := old(State()).dates + DecodeDates(es[..i]).0)
      {
        assert es[..i + 1][..i] == es[..i];
        var d := DecodeDate(es[i]);
        if d.Err? {
          DecodeDatesSticky(es, i + 1);
          return Fail(d.error);
        }
        datesList := datesList + [d.value];
        i := i + 1;
      }
      assert es[..i] == es;
      return Pass;
    }

    /** The "features" loop of `loadVehicleFromJson`: string elements are
        appended, all others skipped. */
    method AppendFeatures(es: seq<Json>)
      modifies featuresList
      ensures State() == old(State()).(features := old(State()).features + StringElems(es))
    {
      var i := 0;
      while i < |es|
        invariant 0 <= i <= |es|
        invariant State() == old(State()).(features := old(State()).features + StringElems(es[..i]))
      {
        assert es[..i + 1][..i] == es[..i];
        if es[i].JStr? {
          featuresList.Add(Some(es[i].s));
        }
        i := i + 1;
      }
      assert es[..i] == es;
    }

    /** `toString`: the JSON object of the record (its text form is left to
        json-simple). */
    method ToJson() returns (j: Json)
      ensures j == VehicleJson(State())
    {
      var datesJson := DatesListToJson();
      var featuresJson: seq<Json> := [];
      var i := 0;
      while i < |featuresList.elems|
        invariant 0 <= i <= |featuresList.elems|
        invariant featuresJson == FeaturesJson(featuresList.elems[..i])
      {
        assert featuresList.elems[..i + 1][..i] == featuresList.elems[..i];
        featuresJson := featuresJson + [FromText(featuresList.elems[i])];
        i := i + 1;
      }
      assert featuresList.elems[..i] == featuresList.elems;
      j := JObj(map[
        OrderNumberKey := FromText(orderNumber),
        ModelKey := FromText(model),
        DescriptionKey := FromText(description),
        DatesKey := JArr(datesJson),
        FeaturesKey := JArr(featuresJson)]);
    }

    /** `datesListToJson`: one object per entry, in order. */
    method DatesListToJson() returns (arr: seq<Json>)
      ensures arr == DatesJson(datesList)
    {
      arr := [];
      var i := 0;
      while i < |datesList|
        invariant 0 <= i <= |datesList|
        invariant arr == DatesJson(datesList[..i])
      {
        assert datesList[..i + 1][..i] == datesList[..i];
        arr := arr + [DateJson(datesList[i])];
        i := i + 1;
      }
      assert datesList[..i] == datesList;
    }
  }

  // ---------------------------------------------------------------------------
  // Encoding

  function DateJson(d: DateEntry): Json {
    JObj(map[DateKey := FromText(d.date), LocationKey := FromText(d.location), TypeKey := FromText(d.kind)])
  }

  /** The dates as a JSON array: one `{date, location, type}` object per entry. */
  function DatesJson(ds: seq<DateEntry>): (r: seq<Json>)
    ensures |r| == |ds|
    ensures forall k :: 0 <= k < |ds| ==>
              r[k].JObj? && r[k].fields.Keys == {DateKey, LocationKey, TypeKey}
  {
    if ds == [] then [] else DatesJson(ds[..|ds| - 1]) + [DateJson(ds[|ds| - 1])]
  }

  function FeaturesJson(fs: seq<Option<string>>): (r: seq<Json>)
    ensures |r| == |fs|
    ensures forall k :: 0 <= k < |fs| ==> (r[k] == JNull <==> fs[k].None?)
  {
    if fs == [] then [] else FeaturesJson(fs[..|fs| - 1]) + [FromText(fs[|fs| - 1])]
  }

  /** The JSON object `toString` writes: exactly the five keys. */
  function VehicleJson(s: VehicleState): (r: Json)
    ensures r.JObj?
    ensures r.fields.Keys == {OrderNumberKey, ModelKey, DescriptionKey, DatesKey, FeaturesKey}
  {
    JObj(map[
      OrderNumberKey := FromText(s.orderNumber),
      ModelKey := FromText(s.model),
      DescriptionKey := FromText(s.description),
      DatesKey := JArr(DatesJson(s.dates)),
      FeaturesKey := JArr(FeaturesJson(s.features))])
  }

  // ---------------------------------------------------------------------------
  // Decoding

  /** The record after a load, and whether the load completed or threw. */
  datatype Loaded = Loaded(state: VehicleState, outcome: Outcome)

  /** One element of "dates": `(JSONObject) dateObj` and three String casts. */
  function DecodeDate(j: Json): Result<DateEntry> {
    match AsObject(j)
    case Err(e) => Err(e)
    case Ok(None) => Err(NullPointer)
    case Ok(Some(m)) =>
      var d := AsText(Get(m, DateKey));
      var l := AsText(Get(m, LocationKey));
      var t := AsText(Get(m, TypeKey));
      if d.Ok? && l.Ok? && t.Ok? then Ok(DateEntry(d.value, l.value, t.value)) else Err(ClassCast)
  }

  /** The entries appended before the first element that throws, and the outcome. */
  function DecodeDates(es: seq<Json>): (seq<DateEntry>, Outcome) {
    if es == [] then ([], Pass)
    else
      var (ds, o) := DecodeDates(es[..|es| - 1]);
      if o.Fail? then (ds, o)
      else match DecodeDate(es[|es| - 1])
        case Ok(d) => (ds + [d], Pass)
        case Err(e) => (ds, Fail(e))
  }

  /** Once an element has thrown, later elements change nothing. */
  lemma {:induction false} DecodeDatesSticky(es: seq<Json>, n: nat)
    requires n <= |es|
    requires DecodeDates(es[..n]).1.Fail?
    ensures DecodeDates(es) == DecodeDates(es[..n])
    decreases |es| - n
  {
    if n < |es| {
      assert es[..n + 1][..n] == es[..n];
      DecodeDatesSticky(es, n + 1);
    } else {
      assert es[..n] == es;
    }
  }

  /** The elements of "features" that are strings, in order; all others are dropped. */
  function StringElems(es: seq<Json>): (r: seq<Option<string>>)
    ensures |r| <= |es|
    ensures forall x :: x in r ==> x.Some? && JStr(x.value) in es
    ensures forall t :: JStr(t) in es ==> Some(t) in r
  {
    if es == [] then []
    else
      var rest := StringElems(es[..|es| - 1]);
      assert forall x :: x in es[..|es| - 1] ==> x in es;
      if es[|es| - 1].JStr? then rest + [Some(es[|es| - 1].s)] else rest
  }

  /** The features list with its null entries removed. */
  function DropNulls(fs: seq<Option<string>>): (r: seq<Option<string>>)
    ensures |r| <= |fs|
    ensures forall x :: x in r ==> x.Some? && x in fs
    ensures forall x :: x in fs && x.Some? ==> x in r
  {
    if fs == [] then []
    else
      var rest := DropNulls(fs[..|fs| - 1]);
      assert forall x :: x in fs[..|fs| - 1] ==> x in fs;
      if fs[|fs| - 1].Some? then rest + [fs[|fs| - 1]] else rest
  }

  /** The string read from the last element, if any. */
  function LastString(e: Json): seq<Option<string>> {
    if e.JStr? then [Some(e.s)] else []
  }

  lemma StringElemsLast(es: seq<Json>)
    requires es != []
    ensures StringElems(es) == StringElems(es[..|es| - 1]) + LastString(es[|es| - 1])
  {
  }

  /** Reading the features keeps their order: the strings of two arrays one
      after the other are those of their concatenation. */
  lemma {:induction false} StringElemsKeepsOrder(a: seq<Json>, b: seq<Json>)
    ensures StringElems(a + b) == StringElems(a) + StringElems(b)
  {
    if b == [] {
      assert a + b == a;
    } else {
      var init, last := b[..|b| - 1], b[|b| - 1];
      var ab := a + b;
      assert ab[..|ab| - 1] == a + init && ab[|ab| - 1] == last;
      StringElemsLast(ab);
      StringElemsLast(b);
      calc {
        StringElems(ab);
        StringElems(a + init) + LastString(last);
        { StringElemsKeepsOrder(a, init); }
        (StringElems(a) + StringElems(init)) + LastString(last);
        StringElems(a) + (StringElems(init) + LastString(last));
        StringElems(a) + StringElems(b);
      }
    }
  }

  /** The last entry, if it is not null. */
  function LastPresent(x: Option<string>): seq<Option<string>> {
    if x.Some? then [x] else []
  }

  lemma DropNullsLast(fs: seq<Option<string>>)
    requires fs != []
    ensures DropNulls(fs) == DropNulls(fs[..|fs| - 1]) + LastPresent(fs[|fs| - 1])
  {
  }

  /** Dropping nulls keeps the order of what remains: the non-null entries
      of two lists one after the other are those of their concatenation. */
  lemma {:induction false} DropNullsKeepsOrder(a: seq<Option<string>>, b: seq<Option<string>>)
    ensures DropNulls(a + b) == DropNulls(a) + DropNulls(b)
  {
    if b == [] {
      assert a + b == a;
    } else {
      var init, last := b[..|b| - 1], b[|b| - 1];
      var ab := a + b;
      assert ab[..|ab| - 1] == a + init && ab[|ab| - 1] == last;
      DropNullsLast(ab);
      DropNullsLast(b);
      calc {
        DropNulls(ab);
        DropNulls(a + init) + LastPresent(last);
        { DropNullsKeepsOrder(a, init); }
        (DropNulls(a) + DropNulls(init)) + LastPresent(last);
        DropNulls(a) + (DropNulls(init) + LastPresent(last));
        DropNulls(a) + DropNulls(b);
      }
    }
  }

  /** `loadVehicleFromJson` on a record in state `s`. */
  function LoadSpec(s: VehicleState, j: Json): Loaded {
    if !j.JObj? then Loaded(s, Fail(Parse))
    else
      var m := j.fields;
      var on := AsText(Get(m, OrderNumberKey));
      if on.Err? then Loaded(s, Fail(on.error))
      else
        var s1 := s.(orderNumber := on.value);
        var md := AsText(Get(m, ModelKey));
        if md.Err? then Loaded(s1, Fail(md.error))
        else
          var s2 := s1.(model := md.value);
          var ds := AsText(Get(m, DescriptionKey));
          if ds.Err? then Loaded(s2, Fail(ds.error))
          else
            var s3 := s2.(description := ds.value);
            var afterDates := LoadDates(s3, m);
            if afterDates.outcome.Fail? then afterDates
            else LoadFeatures(afterDates.state, m)
  }

  function LoadDates(s: VehicleState, m: map<string, Json>): Loaded {
    if DatesKey !in m then Loaded(s, Pass)
    else match AsIterableArray(m[DatesKey])
      case Err(e) => Loaded(s, Fail(e))
      case Ok(es) =>
        var (ds, o) := DecodeDates(es);
        Loaded(s.(dates := s.dates + ds), o)
  }

  function LoadFeatures(s: VehicleState, m: map<string, Json>): Loaded {
    if FeaturesKey !in m then Loaded(s, Pass)
    else match AsIterableArray(m[FeaturesKey])
      case Err(e) => Loaded(s, Fail(e))
      case Ok(es) => Loaded(s.(features := s.features + StringElems(es)), Pass)
  }

  // ---------------------------------------------------------------------------
  // Properties

  /** Loading only appends to the two lists: the old dates and features stay
      in front, and a missing key leaves its list as it was. The series number
      is never touched. */
  lemma LoadOnlyAppends(s: VehicleState, j: Json)
    ensures var r := LoadSpec(s, j).state;
      && r.seriesNumber == s.seriesNumber
      && |s.dates| <= |r.dates| && r.dates[..|s.dates|] == s.dates
      && |s.features| <= |r.features| && r.features[..|s.features|] == s.features
      && (j.JObj? && DatesKey !in j.fields ==> r.dates == s.dates)
      && (j.JObj? && FeaturesKey !in j.fields ==> r.features == s.features)
  {
  }

  /** The three scalar fields are copied as they are, without the
      nine-character check: a two-character order number is accepted. */
  lemma LoadSkipsOrderNumberCheck(s: VehicleState)
    ensures var r := LoadSpec(s, JObj(map[OrderNumberKey := JStr("AB")]));
      && r.outcome == Pass
      && r.state.orderNumber == Some("AB")
      && r.state.seriesNumber == s.seriesNumber
      && r.state.model == None && r.state.description == None
  {
    var m := map[OrderNumberKey := JStr("AB")];
    assert DatesKey !in m && FeaturesKey !in m;
  }

  /** Hence a loaded record may break the intended invariant. */
  lemma LoadBreaksSeriesInvariant()
    ensures SeriesConsistent(Blank)
    ensures !SeriesConsistent(LoadSpec(Blank, JObj(map[OrderNumberKey := JStr("123456789")])).state)
  {
    var m := map[OrderNumberKey := JStr("123456789")];
    assert DatesKey !in m && FeaturesKey !in m;
  }

  lemma DecodeDateOfEncoding(d: DateEntry)
    ensures DecodeDate(DateJson(d)) == Ok(d)
  {
    var m := DateJson(d).fields;
    assert DateKey != LocationKey && DateKey != TypeKey && LocationKey != TypeKey;
    assert m[DateKey] == FromText(d.date);
  }

  lemma VehicleJsonFields(s: VehicleState)
    ensures var m := VehicleJson(s).fields;
      && m[OrderNumberKey] == FromText(s.orderNumber)
      && m[ModelKey] == FromText(s.model)
      && m[DescriptionKey] == FromText(s.description)
      && m[DatesKey] == JArr(DatesJson(s.dates))
      && m[FeaturesKey] == JArr(FeaturesJson(s.features))
  {
    assert OrderNumberKey != ModelKey && OrderNumberKey != DescriptionKey && OrderNumberKey != DatesKey;
    assert OrderNumberKey != FeaturesKey && ModelKey != DescriptionKey && ModelKey != DatesKey;
    assert ModelKey != FeaturesKey && DescriptionKey != DatesKey && DescriptionKey != FeaturesKey;
    assert DatesKey != FeaturesKey;
  }

  lemma {:induction false} DecodeDatesOfEncoding(ds: seq<DateEntry>)
    ensures DecodeDates(DatesJson(ds)) == (ds, Pass)
  {
    if ds != [] {
      var init := ds[..|ds| - 1];
      DecodeDatesOfEncoding(init);
      assert DatesJson(ds)[..|ds| - 1] == DatesJson(init);
      DecodeDateOfEncoding(ds[|ds| - 1]);
      assert init + [ds[|ds| - 1]] == ds;
    }
  }

  lemma {:induction false} StringElemsOfEncoding(fs: seq<Option<string>>)
    ensures StringElems(FeaturesJson(fs)) == DropNulls(fs)
  {
    if fs != [] {
      StringElemsOfEncoding(fs[..|fs| - 1]);
      assert FeaturesJson(fs)[..|fs| - 1] == FeaturesJson(fs[..|fs| - 1]);
    }
  }

  lemma LoadFieldsOfEncoding(s: VehicleState)
    ensures var s3 := VehicleState(s.orderNumber, s.model, s.description, None, [], []);
            var m := VehicleJson(s).fields;
            LoadSpec(Blank, VehicleJson(s)) ==
              (if LoadDates(s3, m).outcome.Fail? then LoadDates(s3, m)
               else LoadFeatures(LoadDates(s3, m).state, m))
  {
    var m := VehicleJson(s).fields;
    VehicleJsonFields(s);
    assert AsText(Get(m, OrderNumberKey)) == Ok(s.orderNumber);
    assert AsText(Get(m, ModelKey)) == Ok(s.model);
    assert AsText(Get(m, DescriptionKey)) == Ok(s.description);
  }

  lemma LoadListsOfEncoding(s: VehicleState, s3: VehicleState)
    requires s3.dates == [] && s3.features == []
    ensures var m := VehicleJson(s).fields;
      && LoadDates(s3, m) == Loaded(s3.(dates := s.dates), Pass)
      && LoadFeatures(s3.(dates := s.dates), m) == Loaded(s3.(dates := s.dates, features := DropNulls(s.features)), Pass)
  {
    VehicleJsonFields(s);
    LoadDatesOfEncoding(s.dates, VehicleJson(s).fields, s3);
    LoadFeaturesOfEncoding(s.features, VehicleJson(s).fields, s3.(dates := s.dates));
  }

  lemma LoadDatesOfEncoding(ds: seq<DateEntry>, m: map<string, Json>, s3: VehicleState)
    requires s3.dates == [] && DatesKey in m && m[DatesKey] == JArr(DatesJson(ds))
    ensures LoadDates(s3, m) == Loaded(s3.(dates := ds), Pass)
  {
    DecodeDatesOfEncoding(ds);
    assert AsIterableArray(m[DatesKey]) == Ok(DatesJson(ds));
    assert [] + ds == ds;
  }

  lemma LoadFeaturesOfEncoding(fs: seq<Option<string>>, m: map<string, Json>, s3: VehicleState)
    requires s3.features == [] && FeaturesKey in m && m[FeaturesKey] == JArr(FeaturesJson(fs))
    ensures LoadFeatures(s3, m) == Loaded(s3.(features := DropNulls(fs)), Pass)
  {
    StringElemsOfEncoding(fs);
    assert AsIterableArray(m[FeaturesKey]) == Ok(FeaturesJson(fs));
    assert [] + DropNulls(fs) == DropNulls(fs);
  }

  /** Round trip: loading the JSON of a record into a new record gives back
      the order number, model, description and dates; the features come back
      without their null entries, and the series number is not restored. */
  lemma LoadOfJsonRoundTrip(s: VehicleState)
    ensures LoadSpec(Blank, VehicleJson(s)) ==
            Loaded(VehicleState(s.orderNumber, s.model, s.description, None, s.dates, DropNulls(s.features)), Pass)
  {
    LoadFieldsOfEncoding(s);
    LoadListsOfEncoding(s, VehicleState(s.orderNumber, s.model, s.description, None, [], []));
  }


}
