/** api/MesApi: a MES order record as a list of `MesSatz` fields, the
    fixed layout of the order record, setting a value by field name and
    rendering the whole record. */
module MesOrders {
  import opened Wrappers
  import opened JavaInts
  import opened MesFields

  /** The fields `genSatzAuftrag` creates, in order. */
  const AuftragLayout: seq<Field> := [
    Field(Some("Richtung"), Some(1), Some(1), 'N', Some("1")),
    Field(Some("Satzart"), Some(2), Some(3), 'N', Some("100")),
    Field(Some("Logik"), Some(5), Some(3), 'N', Some("350")),
    Field(Some("Leer"), Some(8), Some(3), 'C', Some("")),
    Field(Some("Datum"), Some(11), Some(12), 'D', Some("01.01.1980 00:00:00")),
    Field(Some("AKNr"), Some(23), Some(15), 'C', Some("")),
    Field(Some("KundAuftrNr"), Some(38), Some(12), 'C', Some("")),
    Field(Some("RueckmeldNr"), Some(50), Some(10), 'N', Some(""))]

  /** The sum of the widths of the fields (a null width counts as 0). */
  function TotalWidth(fs: seq<Field>): int {
    if fs == [] then 0 else TotalWidth(fs[..|fs| - 1]) + fs[|fs| - 1].laenge.GetOr(0)
  }

  /** The order layout is contiguous: it starts at position 1, each field
      starts where the one before it ends, and the last ends at 59, the
      sum of the widths. */
  lemma AuftragContiguous()
    ensures |AuftragLayout| == 8 && AuftragLayout[0].von == Some(1)
    ensures forall k :: 0 <= k < 8 ==> AuftragLayout[k].von.Some? && AuftragLayout[k].laenge.Some?
    ensures forall k :: 0 < k < 8 ==>
              AuftragLayout[k].von.value == AuftragLayout[k - 1].von.value + AuftragLayout[k - 1].laenge.value
    ensures AuftragLayout[7].von.value + AuftragLayout[7].laenge.value - 1 == 59
    ensures TotalWidth(AuftragLayout) == 59
  {
    var l := AuftragLayout;
    assert l[..7][..6][..5][..4][..3][..2][..1][..0] == [];
    assert TotalWidth(l[..1]) == 1;
    assert TotalWidth(l[..2]) == 4 by { assert l[..2][..1] == l[..1]; }
    assert TotalWidth(l[..3]) == 7 by { assert l[..3][..2] == l[..2]; }
    assert TotalWidth(l[..4]) == 10 by { assert l[..4][..3] == l[..3]; }
    assert TotalWidth(l[..5]) == 22 by { assert l[..5][..4] == l[..4]; }
    assert TotalWidth(l[..6]) == 37 by { assert l[..6][..5] == l[..5]; }
    assert TotalWidth(l[..7]) == 49 by { assert l[..7][..6] == l[..6]; }
    assert l[..8] == l;
  }

  /** The layout of the order record with whatever values were set. */
  predicate AuftragShape(fs: seq<Field>) {
    |fs| == 8 && forall k :: 0 <= k < 8 ==> fs[k].(wert := None) == AuftragLayout[k].(wert := None)
  }

  /** `MesApi.toString`: the texts of the fields concatenated in list
      order; the first field that throws ends it. */
  function RenderAll(fs: seq<Field>): Result<string> {
    if fs == [] then Ok("")
    else match RenderAll(fs[..|fs| - 1])
      case Err(e) => Err(e)
      case Ok(s) =>
        match Render(fs[|fs| - 1]).0
        case Ok(t) => Ok(s + t)
        case Err(e) => Err(e)
  }

  /** The number of fields whose `toString` ran: all of them, or up to and
      including the one that threw. */
  function Reached(fs: seq<Field>): (r: nat)
    ensures r <= |fs|
  {
    if fs == [] then 0
    else if RenderAll(fs[..|fs| - 1]).Err? then Reached(fs[..|fs| - 1])
    else |fs|
  }

  /** A field that renders: a width that is set and not negative and, for a
      date, a value that is set and a width of twelve. */
  predicate Renders(f: Field) {
    && f.laenge.Some? && f.laenge.value >= 0
    && (f.typ == 'D' ==> f.wert.Some? && f.laenge.value == 12)
  }

  /** When every field renders, the record is as long as the sum of the
      widths. */
  lemma {:induction false} RenderAllWidth(fs: seq<Field>)
    requires forall k :: 0 <= k < |fs| ==> Renders(fs[k])
    ensures RenderAll(fs).Ok? && |RenderAll(fs).value| == TotalWidth(fs)
  {
    if fs != [] {
      RenderAllWidth(fs[..|fs| - 1]);
      RenderWidth(fs[|fs| - 1]);
    }
  }

  /** Whatever values are set, an order record whose date is set renders
      in 59 characters. */
  lemma AuftragWidth(fs: seq<Field>)
    requires AuftragShape(fs) && fs[4].wert.Some?
    ensures RenderAll(fs).Ok? && |RenderAll(fs).value| == 59
  {
    AuftragContiguous();
    forall k | 0 <= k < 8
      ensures Renders(fs[k]) && fs[k].laenge == AuftragLayout[k].laenge
    {
      assert fs[k].laenge == fs[k].(wert := None).laenge;
    }
    assert TotalWidth(fs) == TotalWidth(AuftragLayout) by {
      TotalWidthSameWidths(fs, AuftragLayout);
    }
    RenderAllWidth(fs);
  }

  lemma {:induction false} TotalWidthSameWidths(fs: seq<Field>, gs: seq<Field>)
    requires |fs| == |gs| && forall k :: 0 <= k < |fs| ==> fs[k].laenge == gs[k].laenge
    ensures TotalWidth(fs) == TotalWidth(gs)
  {
    if fs != [] {
      TotalWidthSameWidths(fs[..|fs| - 1], gs[..|gs| - 1]);
    }
  }

  /** Rendering one more field after a prefix that rendered: its text is
      appended, or its error ends the record; either way it was reached. */
  lemma RenderAllStep(fs: seq<Field>, i: nat)
    requires i < |fs| && RenderAll(fs[..i]).Ok?
    ensures RenderAll(fs[..i + 1]) ==
              if Render(fs[i]).0.Ok? then Ok(RenderAll(fs[..i]).value + Render(fs[i]).0.value) else Render(fs[i]).0
    ensures Reached(fs[..i + 1]) == i + 1
  {
    assert fs[..i + 1][..i] == fs[..i];
  }

  /** Once a field has thrown, the later fields change nothing. */
  lemma {:induction false} RenderSticky(fs: seq<Field>, n: nat)
    requires n <= |fs| && RenderAll(fs[..n]).Err?
    ensures RenderAll(fs) == RenderAll(fs[..n]) && Reached(fs) == Reached(fs[..n])
    decreases |fs| - n
  {
    if n < |fs| {
      assert fs[..n + 1][..n] == fs[..n];
      RenderSticky(fs, n + 1);
    } else {
      assert fs[..n] == fs;
    }
  }

  /** The values of a list of fields. */
  function States(satz: seq<MesSatz>): (r: seq<Field>)
    reads satz
    ensures |r| == |satz| && forall k :: 0 <= k < |satz| ==> r[k] == satz[k].State()
  {
    if satz == [] then [] else States(satz[..|satz| - 1]) + [satz[|satz| - 1].State()]
  }

  /** The index of the first field without a name, or the length. */
  function FirstUnnamed(fs: seq<Field>): (r: nat)
    ensures r <= |fs|
    ensures forall k :: 0 <= k < r ==> fs[k].name.Some?
    ensures r < |fs| ==> fs[r].name.None?
  {
    if fs == [] || fs[0].name.None? then 0 else 1 + FirstUnnamed(fs[1..])
  }

  /** `genSatzAuftrag`: eight new field objects with the order layout. */
  method GenSatzAuftrag() returns (satz: seq<MesSatz>)
    ensures States(satz) == AuftragLayout
    ensures forall k :: 0 <= k < |satz| ==> fresh(satz[k])
    ensures forall j, k :: 0 <= j < k < |satz| ==> satz[j] != satz[k]
  {
    var layout := AuftragLayout;
    satz := [];
    var i := 0;
    while i < |layout|
      invariant 0 <= i <= |layout| && |satz| == i
      invariant forall k :: 0 <= k < i ==> satz[k].State() == layout[k]
      invariant forall k :: 0 <= k < i ==> fresh(satz[k])
      invariant forall j, k :: 0 <= j < k < i ==> satz[j] != satz[k]
    {
      var f := layout[i];
      var feld := new MesSatz(f.name, f.von, f.laenge, f.typ, f.wert);
      satz := satz + [feld];
      i := i + 1;
    }
    assert States(satz) == layout;
  }

  /** `setzeWert`: every field named `name` gets the value `wert`, the others
      keep theirs; a field without a name throws when it is compared, and
      the fields before it keep their new values. */
  method SetzeWert(satz: seq<MesSatz>, name: Option<string>, wert: Option<string>) returns (outcome: Outcome)
    modifies satz
    ensures var n := FirstUnnamed(old(States(satz)));
      && outcome == (if n < |satz| then Fail(NullPointer) else Pass)
      && SetUpTo(satz, old(States(satz)), n, name, wert)
  {
    ghost var olds := States(satz);
    var i := 0;
    assert satz[..0] == [];
    while i < |satz|
      invariant 0 <= i <= FirstUnnamed(olds)
      invariant SetUpTo(satz, olds, i, name, wert)
    {
      assert satz[i].State().name == olds[i].name;
      if satz[i].name.None? {
        return Fail(NullPointer);
      }
      assert i < FirstUnnamed(olds) by {
        assert olds[i].name.Some?;
      }
      SetField(satz, i, olds, name, wert);
      i := i + 1;
    }
    return Pass;
  }

  /** The fields after `setzeWert` has gone through the first `i` of them:
      those named `name` hold `wert`, all others their original values. */
  ghost predicate SetUpTo(satz: seq<MesSatz>, olds: seq<Field>, i: nat, name: Option<string>, wert: Option<string>)
    requires i <= |satz| == |olds|
    reads satz
  {
    forall k :: 0 <= k < |satz| ==>
      satz[k].State() == if satz[k] in satz[..i] && olds[k].name == name then olds[k].(wert := wert) else olds[k]
  }

  /** One step of `setzeWert`: the field at `i` takes the value when its
      name matches. */
  method SetField(satz: seq<MesSatz>, i: nat, ghost olds: seq<Field>, name: Option<string>, wert: Option<string>)
    requires i < |satz| && |olds| == |satz|
    requires forall k :: 0 <= k < |satz| && satz[k] == satz[i] ==> olds[k] == olds[i]
    requires SetUpTo(satz, olds, i, name, wert)
    modifies satz[i]
    ensures SetUpTo(satz, olds, i + 1, name, wert)
  {
    assert satz[..i + 1] == satz[..i] + [satz[i]];
    if satz[i].name == name {
      satz[i].SetWert(wert);
    }
  }

  /** `toString`: renders the fields in order. Rendering writes the null
      replacements back into the fields it reached; a field listed twice
      renders the same text both times. */
  method ToString(satz: seq<MesSatz>) returns (r: Result<string>)
    modifies satz
    ensures r == RenderAll(old(States(satz)))
    ensures RenderedUpTo(satz, old(States(satz)), Reached(old(States(satz))))
  {
    ghost var olds := States(satz);
    r := Ok("");
    var i := 0;
    assert satz[..0] == [];
    while i < |satz| && r.Ok?
      invariant 0 <= i <= |satz|
      invariant RenderAll(olds[..i]) == r
      invariant Reached(olds[..i]) == i
      invariant RenderedUpTo(satz, olds, i)
    {
      RenderAllStep(olds, i);
      var t := RenderField(satz, i, olds);
      r := if t.Ok? then Ok(r.value + t.value) else t;
      i := i + 1;
    }
    if r.Err? {
      RenderSticky(olds, i);
    } else {
      assert olds[..i] == olds;
    }
  }

  /** The fields after `toString` has rendered the first `i` of them: those
      hold what rendering their original values leaves, all others their
      original values. */
  ghost predicate RenderedUpTo(satz: seq<MesSatz>, olds: seq<Field>, i: nat)
    requires i <= |satz| == |olds|
    reads satz
  {
    forall k :: 0 <= k < |satz| ==>
      satz[k].State() == if satz[k] in satz[..i] then Render(olds[k]).1 else olds[k]
  }

  /** One step of `toString`: the field at `i` renders as its original
      value would, whether or not it was reached before under another
      index. */
  method RenderField(satz: seq<MesSatz>, i: nat, ghost olds: seq<Field>) returns (t: Result<string>)
    requires i < |satz| && |olds| == |satz|
    requires forall k :: 0 <= k < |satz| && satz[k] == satz[i] ==> olds[k] == olds[i]
    requires RenderedUpTo(satz, olds, i)
    modifies satz[i]
    ensures t == Render(olds[i]).0
    ensures RenderedUpTo(satz, olds, i + 1)
  {
    assert satz[..i + 1] == satz[..i] + [satz[i]];
    RenderStable(olds[i]);
    t := satz[i].ToString();
  }
}
