/** api/MesSatz: one field of a fixed-width MES record. A field has a name,
    a start position (`von`), a width (`laenge`), a type character (`typ`)
    and a value (`wert`); `toString` renders the value in its width:
    type 'N' right-aligned with zeros, 'D' as a date "yyMMddHHmmss", and
    'C' (and every other type) right-aligned with spaces. */
module MesFields {
  import opened Wrappers
  import opened JavaInts
  import opened JavaTime

  /** The value of a `MesSatz`: its five fields. */
  datatype Field = Field(name: Option<string>, von: Option<Int32>, laenge: Option<Int32>, typ: char, wert: Option<string>)

  /** `n` copies of `c`. */
  function Fill(n: nat, c: char): (r: string)
    ensures |r| == n
    ensures forall i :: 0 <= i < n ==> r[i] == c
  {
    if n == 0 then [] else Fill(n - 1, c) + [c]
  }

  /** `w` right-aligned in `width` characters: filled with `c` on the left
      when it is shorter, cut to its last `width` characters when it is
      longer. */
  function PadLeft(w: string, width: nat, c: char): (r: string)
  {
    if |w| <= width then Fill(width - |w|, c) + w else w[|w| - width..]
  }

  /** What a padded field shows: exactly `width` characters, the fill
      character on the left and the end of the value on the right. */
  lemma PadLeftShape(w: string, width: nat, c: char)
    ensures var r := PadLeft(w, width, c);
      && |r| == width
      && (|w| <= width ==> r[width - |w|..] == w && forall i :: 0 <= i < width - |w| ==> r[i] == c)
      && (|w| > width ==> r == w[|w| - width..])
  {
    var r := PadLeft(w, width, c);
    if |w| <= width {
      assert r[width - |w|..] == w;
    }
  }

  /** A value that fills its width exactly is shown as it is, and padding
      twice changes nothing. */
  lemma PadLeftIdempotent(w: string, width: nat, c: char)
    ensures |w| == width ==> PadLeft(w, width, c) == w
    ensures PadLeft(PadLeft(w, width, c), width, c) == PadLeft(w, width, c)
  {
    if |w| == width {
      assert Fill(0, c) + w == w;
    }
    PadLeftShape(w, width, c);
    var r := PadLeft(w, width, c);
    assert Fill(0, c) + r == r;
  }

  /** The string builder of `typeC`/`typeN`: `width` fill characters
      followed by the value; its last `width` characters are the padded
      value. */
  lemma FilledSuffix(w: string, width: nat, c: char)
    ensures (Fill(width, c) + w)[|w|..] == PadLeft(w, width, c)
  {
    var s := Fill(width, c) + w;
    if |w| <= width {
      assert s[|w|..] == Fill(width - |w|, c) + w by {
        forall i | 0 <= i < width
          ensures s[|w|..][i] == (Fill(width - |w|, c) + w)[i]
        {
          if i < width - |w| {
            assert s[|w| + i] == c;
          } else {
            assert s[|w| + i] == w[i - (width - |w|)];
          }
        }
      }
    } else {
      assert s[|w|..] == w[|w| - width..] by {
        forall i | 0 <= i < width
          ensures s[|w|..][i] == w[|w| - width..][i]
        {
          assert s[|w| + i] == w[|w| + i - width];
        }
      }
    }
  }

  /** `String.substring(begin)`: a begin outside 0..|s| throws. */
  function Substring(s: string, begin: int): (r: Result<string>)
    ensures r.Ok? <==> 0 <= begin <= |s|
    ensures r.Ok? ==> r.value == s[begin..]
    ensures r.Err? ==> r.error == IndexOutOfBounds
  {
    if 0 <= begin <= |s| then Ok(s[begin..]) else Err(IndexOutOfBounds)
  }

  /** What `typeC` (with ' ') and `typeN` (with '0') return for the value `w`:
      a null width throws when it is unboxed, a negative one in `substring`. */
  function PadResult(laenge: Option<Int32>, w: string, c: char): (r: Result<string>)
    ensures laenge.None? ==> r == Err(NullPointer)
    ensures laenge.Some? && laenge.value < 0 ==> r == Err(IndexOutOfBounds)
    ensures laenge.Some? && laenge.value >= 0 ==> r == Ok(PadLeft(w, laenge.value, c)) && |r.value| == laenge.value
  {
    match laenge
    case None => Err(NullPointer)
    case Some(n) => if n < 0 then Err(IndexOutOfBounds) else (PadLeftShape(w, n, c); Ok(PadLeft(w, n, c)))
  }

  /** 1970-01-01 00:00:00, which `typeD` parses from "01.01.1970 00:00:00". */
  const Epoch := LocalDateTime(1970, 1, 1, 0, 0, 0)

  lemma PaddedDigits()
    ensures Padded(0, 2) == "00" && Padded(1, 2) == "01" && Padded(70, 2) == "70"
    ensures Padded(1970, 4) == "1970"
  {
    assert Padded(0, 1) == "0" && Padded(1, 1) == "1" && Padded(7, 1) == "7";
    assert Padded(19, 2) == "19" by { assert Padded(1, 1) == "1"; }
    assert Padded(197, 3) == "197";
  }

  lemma EpochDottedText()
    ensures DottedText(Epoch) == "01.01.1970 00:00:00"
  {
    PaddedDigits();
    assert DottedText(Epoch) == "01" + "." + "01" + "." + "1970" + " " + "00" + ":" + "00" + ":" + "00";
    assert "01" + "." + "01" + "." + "1970" + " " + "00" + ":" + "00" + ":" + "00" == "01.01.1970 00:00:00";
  }

  lemma EpochShortText()
    ensures ShortText(Epoch) == "700101000000"
  {
    PaddedDigits();
    assert ShortText(Epoch) == "70" + "01" + "01" + "00" + "00" + "00";
  }

  /** The fallback text of `typeD` is the epoch read from its dotted form
      and printed as "yyMMddHHmmss". */
  lemma EpochText()
    ensures ParseDotted("01.01.1970 00:00:00") == Some(Epoch)
    ensures ShortText(Epoch) == "700101000000"
  {
    EpochDottedText();
    DottedRoundTrip(Epoch);
    EpochShortText();
  }

  /** `typeD`: the value read as "dd.MM.yyyy HH:mm:ss" and printed as
      "yyMMddHHmmss"; a value that does not parse gives the epoch's text.
      A null value throws. */
  function DateText(wert: Option<string>): (r: Result<string>)
    ensures wert.None? ==> r == Err(NullPointer)
    ensures wert.Some? ==> r.Ok? && |r.value| == 12 && AllDigits(r.value)
    ensures wert.Some? && ParseDotted(wert.value).None? ==> r == Ok("700101000000")
  {
    match wert
    case None => Err(NullPointer)
    case Some(w) =>
      match ParseDotted(w)
      case Some(t) => Ok(ShortText(t))
      case None => EpochText(); Ok(ShortText(Epoch))
  }

  /** A date-time written as "dd.MM.yyyy HH:mm:ss" comes out as its
      "yyMMddHHmmss" text. */
  lemma DateTextOfDotted(t: LocalDateTime)
    requires Valid(t)
    ensures DateText(Some(DottedText(t))) == Ok(ShortText(t))
  {
    DottedRoundTrip(t);
  }

  /** `toString`: the text of the field and the field afterwards, since
      `typeC` and `typeN` write their replacement for a null value ("" and
      "0") back into the field before anything can throw. */
  function Render(f: Field): (Result<string>, Field) {
    if f.typ == 'N' then (PadResult(f.laenge, f.wert.GetOr("0"), '0'), f.(wert := Some(f.wert.GetOr("0"))))
    else if f.typ == 'D' then (DateText(f.wert), f)
    else (PadResult(f.laenge, f.wert.GetOr(""), ' '), f.(wert := Some(f.wert.GetOr(""))))
  }

  /** A field renders in exactly its width, a date field in twelve
      characters; a space-padded value no longer than the width is kept
      whole, after the spaces. */
  lemma RenderWidth(f: Field)
    ensures f.typ != 'D' && f.laenge.Some? && f.laenge.value >= 0 ==>
              Render(f).0.Ok? && |Render(f).0.value| == f.laenge.value
    ensures f.typ == 'D' && f.wert.Some? ==> Render(f).0.Ok? && |Render(f).0.value| == 12
    ensures f.typ != 'D' && f.typ != 'N' && f.laenge.Some? && f.wert.Some? && 0 <= |f.wert.value| <= f.laenge.value ==>
              Render(f).0 == Ok(Fill(f.laenge.value - |f.wert.value|, ' ') + f.wert.value)
  {
  }

  /** Rendering is stable: rendering the field as the first rendering left
      it gives the same text and leaves it as it is. */
  lemma RenderStable(f: Field)
    ensures Render(Render(f).1) == Render(f)
  {
  }

  /** Only the value of a field can change, and only when it was null. */
  lemma RenderFillsNull(f: Field)
    ensures var g := Render(f).1;
      && g.(wert := f.wert) == f
      && (f.wert.Some? ==> g == f)
      && (f.typ != 'D' ==> g.wert.Some?)
  {
  }

  class MesSatz {
    var name: Option<string>
    var von: Option<Int32>
    var laenge: Option<Int32>
    var typ: char
    var wert: Option<string>

    function State(): Field
      reads this
    {
      Field(name, von, laenge, typ, wert)
    }

    constructor (name: Option<string>, von: Option<Int32>, laenge: Option<Int32>, typ: char, wert: Option<string>)
      ensures State() == Field(name, von, laenge, typ, wert)
    {
      this.name := name;
      this.von := von;
      this.laenge := laenge;
      this.typ := typ;
      this.wert := wert;
    }

    method SetWert(wert: Option<string>)
      modifies this
      ensures State() == old(State()).(wert := wert)
    {
      this.wert := wert;
    }

    /** `typeC`. */
    method TypeC() returns (r: Result<string>)
      modifies this
      ensures State() == old(State()).(wert := Some(old(wert).GetOr("")))
      ensures r == PadResult(old(laenge), old(wert).GetOr(""), ' ')
    {
      r := PadWert("", ' ');
    }

    /** `typeN`. */
    method TypeN() returns (r: Result<string>)
      modifies this
      ensures State() == old(State()).(wert := Some(old(wert).GetOr("0")))
      ensures r == PadResult(old(laenge), old(wert).GetOr("0"), '0')
    {
      r := PadWert("0", '0');
    }

    /** The body shared by `typeC` and `typeN`: replace a null value, build
        `laenge` fill characters followed by the value, keep the last
        `laenge` characters. */
    method PadWert(default: string, c: char) returns (r: Result<string>)
      modifies this
      ensures State() == old(State()).(wert := Some(old(wert).GetOr(default)))
      ensures r == PadResult(old(laenge), old(wert).GetOr(default), c)
    {
      if wert.None? {
        wert := Some(default);
      }
      if laenge.None? {
        return Err(NullPointer);
      }
      var builder := "";
      var i := 0;
      while i < laenge.value
        invariant 0 <= i && (laenge.value >= 0 ==> i <= laenge.value)
        invariant builder == Fill(i, c)
      {
        builder := builder + [c];
        i := i + 1;
      }
      builder := builder + wert.value;
      r := Substring(builder, |builder| - laenge.value);
      if laenge.value >= 0 {
        FilledSuffix(wert.value, laenge.value, c);
        assert |builder| - laenge.value == |wert.value|;
      }
    }

    /** `toString`: dispatch on the type character. */
    method ToString() returns (r: Result<string>)
      modifies this
      ensures (r, State()) == Render(old(State()))
    {
      if typ == 'N' {
        r := TypeN();
      } else if typ == 'D' {
        r := DateText(wert);
      } else {
        r := TypeC();
      }
    }
  }
}
