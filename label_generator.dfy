/** app/LabelGenerator: consecutive label numbers, their serial texts with a
    prefix, and the JSON page that lists them. */
module LabelGenerator {
  import opened Wrappers
  import opened Json
  import opened JavaInts

  const PageKey := "page"
  const PrefixKey := "prefix"
  const LabelsKey := "labels"

  /** The first `n` numbers counted up from `start`, each `start + k` in
      `int` arithmetic (wrapping past `Integer.MAX_VALUE`). */
  function Counted(start: Int32, n: nat): (r: seq<Int32>)
    ensures |r| == n
    ensures forall k :: 0 <= k < n ==> r[k] == WrapInt(start + k)
  {
    if n == 0 then [] else Counted(start, n - 1) + [WrapInt(start + (n - 1))]
  }

  /** `genNumbers`: `count` numbers from `start` (none for a negative count);
      a null argument gives the empty list. */
  method GenNumbers(start: Option<Int32>, count: Option<Int32>) returns (list: seq<Int32>)
    ensures start.None? || count.None? ==> list == []
    ensures start.Some? && count.Some? ==> list == Counted(start.value, if count.value < 0 then 0 else count.value)
  {
    list := [];
    if start.Some? && count.Some? {
      var i := 0;
      while i < count.value
        invariant 0 <= i <= (if count.value < 0 then 0 else count.value)
        invariant list == Counted(start.value, i)
      {
        list := list + [WrapInt(start.value + i)];
        i := i + 1;
      }
    }
  }

  /** Two values closer than 2^32 wrap to the same `int` only when equal. */
  lemma WrapIntInjective(x: int, y: int)
    requires -0x1_0000_0000 < x - y < 0x1_0000_0000
    requires WrapInt(x) == WrapInt(y)
    ensures x == y
  {
    var a, b := x - MinInt, y - MinInt;
    assert a % 0x1_0000_0000 == b % 0x1_0000_0000;
    assert a == (a / 0x1_0000_0000) * 0x1_0000_0000 + a % 0x1_0000_0000;
    assert b == (b / 0x1_0000_0000) * 0x1_0000_0000 + b % 0x1_0000_0000;
    var d := a / 0x1_0000_0000 - b / 0x1_0000_0000;
    assert a - b == d * 0x1_0000_0000;
  }

  /** Every count an `int` can hold gives distinct numbers, even when the
      count runs past `Integer.MAX_VALUE` and wraps. */
  lemma CountedDistinct(start: Int32, n: nat)
    requires n <= MaxInt
    ensures forall j, k :: 0 <= j < k < n ==> Counted(start, n)[j] != Counted(start, n)[k]
  {
    var r := Counted(start, n);
    forall j, k | 0 <= j < k < n
      ensures r[j] != r[k]
    {
      if r[j] == r[k] {
        WrapIntInjective(start + j, start + k);
      }
    }
  }

  /** Without overflow the numbers are exactly start, start + 1, … */
  lemma CountedWithoutOverflow(start: Int32, n: nat)
    requires start + n <= MaxInt + 1
    ensures forall k :: 0 <= k < n ==> Counted(start, n)[k] == start + k
  {
  }

  /** Counting past `Integer.MAX_VALUE` goes on at `Integer.MIN_VALUE`. */
  lemma CountedWraps()
    ensures Counted(MaxInt, 2) == [MaxInt, MinInt]
  {
    assert Counted(MaxInt, 2)[1] == WrapInt(MaxInt + 1);
  }

  /** `prefix + number.toString()`: the prefix ("null" when null) followed by
      the decimal text of the number. */
  function Serial(prefix: Option<string>, n: Int32): string
  {
    JavaText(prefix) + DecimalText(n)
  }

  /** The serial numbers of a list: the serial of each number, in order; a
      null element throws. */
  function Serials(prefix: Option<string>, numbers: seq<Option<Int32>>): (r: Result<seq<string>>)
    ensures r.Ok? <==> forall k :: 0 <= k < |numbers| ==> numbers[k].Some?
    ensures r.Err? ==> r.error == NullPointer
    ensures r.Ok? ==> |r.value| == |numbers|
    ensures r.Ok? ==> forall k :: 0 <= k < |numbers| ==> r.value[k] == Serial(prefix, numbers[k].value)
  {
    if forall k :: 0 <= k < |numbers| ==> numbers[k].Some? then
      Ok(seq(|numbers|, k requires 0 <= k < |numbers| && numbers[k].Some? => Serial(prefix, numbers[k].value)))
    else Err(NullPointer)
  }

  /** `genSerialNumbers`: the serials of the list in order; a null list gives
      none, a null element throws `NullPointerException`. */
  method GenSerialNumbers(prefix: Option<string>, numbers: Option<seq<Option<Int32>>>) returns (r: Result<seq<string>>)
    ensures numbers.None? ==> r == Ok([])
    ensures numbers.Some? ==> r == Serials(prefix, numbers.value)
  {
    var list := [];
    if numbers.Some? {
      var ns := numbers.value;
      var i := 0;
      while i < |ns|
        invariant 0 <= i <= |ns|
        invariant |list| == i
        invariant forall k :: 0 <= k < i ==> ns[k].Some? && list[k] == Serial(prefix, ns[k].value)
      {
        if ns[i].None? {
          return Err(NullPointer);
        }
        list := list + [Serial(prefix, ns[i].value)];
        i := i + 1;
      }
      ghost var expected := Serials(prefix, ns).value;
      assert list == expected;
    }
    return Ok(list);
  }

  /** Every serial starts with the prefix, and the rest reads back as its
      number. */
  lemma SerialReadsBack(prefix: Option<string>, numbers: seq<Option<Int32>>, k: nat)
    requires Serials(prefix, numbers).Ok? && k < |numbers|
    ensures StartsWith(Serials(prefix, numbers).value[k], JavaText(prefix))
    ensures var s := Serials(prefix, numbers).value[k];
            DecimalValue(s[|JavaText(prefix)|..]) == Some(numbers[k].value as int)
  {
    var p := JavaText(prefix);
    var s := Serials(prefix, numbers).value[k];
    assert s[..|p|] == p;
    assert s[|p|..] == DecimalText(numbers[k].value);
    DecimalRoundTrip(numbers[k].value);
  }

  /** Distinct numbers give distinct serials. */
  lemma SerialsDistinct(prefix: Option<string>, numbers: seq<Option<Int32>>)
    requires Serials(prefix, numbers).Ok?
    requires forall j, k :: 0 <= j < k < |numbers| ==> numbers[j] != numbers[k]
    ensures forall j, k :: 0 <= j < k < |numbers| ==> Serials(prefix, numbers).value[j] != Serials(prefix, numbers).value[k]
  {
    var r := Serials(prefix, numbers).value;
    forall j, k | 0 <= j < k < |numbers|
      ensures r[j] != r[k]
    {
      SerialReadsBack(prefix, numbers, j);
      SerialReadsBack(prefix, numbers, k);
    }
  }

  /** The boxed numbers of a `genNumbers` list. */
  function Boxed(xs: seq<Int32>): (r: seq<Option<Int32>>)
    ensures |r| == |xs|
    ensures forall k :: 0 <= k < |xs| ==> r[k] == Some(xs[k])
  {
    seq(|xs|, k requires 0 <= k < |xs| => Some(xs[k]))
  }

  /** The serials of generated numbers never throw and are all different. */
  lemma GeneratedSerialsDistinct(prefix: Option<string>, start: Int32, n: nat)
    requires n <= MaxInt
    ensures Serials(prefix, Boxed(Counted(start, n))).Ok?
    ensures var r := Serials(prefix, Boxed(Counted(start, n))).value;
            forall j, k :: 0 <= j < k < n ==> r[j] != r[k]
  {
    var ns := Boxed(Counted(start, n));
    CountedDistinct(start, n);
    assert forall j, k :: 0 <= j < k < |ns| ==> ns[j] != ns[k] by {
      forall j, k | 0 <= j < k < |ns|
        ensures ns[j] != ns[k]
      {
        assert Counted(start, n)[j] != Counted(start, n)[k];
      }
    }
    SerialsDistinct(prefix, ns);
  }

  /** The label array: each number as a JSON number, a null one as null. */
  function LabelArray(numbers: seq<Option<Int32>>): (r: seq<Json>)
    ensures |r| == |numbers|
    ensures forall k :: 0 <= k < |numbers| ==> r[k] == FromLong(numbers[k])
  {
    if numbers == [] then []
    else
      var init := numbers[..|numbers| - 1];
      assert forall k :: 0 <= k < |init| ==> init[k] == numbers[k];
      LabelArray(init) + [FromLong(numbers[|numbers| - 1])]
  }

  /** `toJSON`: the page, the prefix and the array of labels; iterating a
      null list throws `NullPointerException`. */
  method ToJson(page: Option<Int32>, prefix: Option<string>, numbers: Option<seq<Option<Int32>>>) returns (r: Result<map<string, Json>>)
    ensures r.Ok? <==> numbers.Some?
    ensures r.Err? ==> r.error == NullPointer
    ensures r.Ok? ==> r.value == map[PageKey := FromLong(page), PrefixKey := FromText(prefix), LabelsKey := JArr(LabelArray(numbers.value))]
  {
    var json: map<string, Json> := map[];
    json := json[PageKey := FromLong(page)];
    json := json[PrefixKey := FromText(prefix)];
    if numbers.None? {
      return Err(NullPointer);
    }
    var ns := numbers.value;
    var labels := [];
    var i := 0;
    while i < |ns|
      invariant 0 <= i <= |ns|
      invariant labels == LabelArray(ns[..i])
    {
      assert ns[..i + 1][..i] == ns[..i];
      labels := labels + [FromLong(ns[i])];
      i := i + 1;
    }
    assert ns[..i] == ns;
    json := json[LabelsKey := JArr(labels)];
    return Ok(json);
  }

  /** Reading the page back gives the page, the prefix and every label,
      null labels included. */
  lemma LabelPageReadsBack(page: Option<Int32>, prefix: Option<string>, numbers: seq<Option<Int32>>)
    ensures var json := map[PageKey := FromLong(page), PrefixKey := FromText(prefix), LabelsKey := JArr(LabelArray(numbers))];
            && AsLong(Get(json, PageKey)) == Ok(page)
            && AsText(Get(json, PrefixKey)) == Ok(prefix)
            && AsIterableArray(Get(json, LabelsKey)).Ok?
            && |AsIterableArray(Get(json, LabelsKey)).value| == |numbers|
            && forall k :: 0 <= k < |numbers| ==> AsLong(AsIterableArray(Get(json, LabelsKey)).value[k]) == Ok(numbers[k])
  {
    var labels := LabelArray(numbers);
    forall k | 0 <= k < |numbers|
      ensures AsLong(labels[k]) == Ok(numbers[k])
    {
      assert labels[k] == FromLong(numbers[k]);
    }
  }
}
