/**
 * The numeric operand of the serial command interpreter: doSerial's static
 * `enteredValue`, built up from digit bytes and shortened by backspace.
 */
module Operand {
  import opened CTypes

  /** The backspace control byte. */
  const BACKSPACE: byte := 8

  predicate IsDigit(c: byte)
  {
    '0' as int <= c <= '9' as int
  }

  /** `c - '0'` for a digit byte. */
  function DigitValue(c: byte): (d: nat)
    requires IsDigit(c)
    ensures d < 10
  {
    c - '0' as int
  }

  /** `enteredValue * 10 + d`: the operand with the digit `d` appended. */
  function PushDigit(v: nat, d: nat): (r: nat)
    requires d < 10
    ensures r / 10 == v && r % 10 == d
  {
    v * 10 + d
  }

  /**
   * `enteredValue / 10`: the operand with its last decimal digit removed.
   * C's `/` truncates toward zero, which agrees with Dafny's `/` on the
   * non-negative values the operand takes.
   */
  function DropDigit(v: nat): (r: nat)
    ensures r * 10 <= v < r * 10 + 10
  {
    v / 10
  }

  /** Backspace after a digit gives back the operand as it was before the digit. */
  lemma BackspaceUndoesDigit(v: nat, d: nat)
    requires d < 10
    ensures DropDigit(PushDigit(v, d)) == v
  {
  }

  /** A run of bytes that only edit the operand. */
  predicate AllEdits(cs: seq<byte>)
  {
    forall i :: 0 <= i < |cs| ==> IsDigit(cs[i]) || cs[i] == BACKSPACE
  }

  function Pow10(n: nat): nat
  {
    if n == 0 then 1 else 10 * Pow10(n - 1)
  }

  lemma {:induction false} MulMonotonic(a: nat, b: nat, p: nat)
    requires a <= b
    ensures a * p <= b * p
  {
    if p > 0 {
      MulMonotonic(a, b, p - 1);
      assert a * p == a * (p - 1) + a;
      assert b * p == b * (p - 1) + b;
    }
  }

  /** A bound below (next + 1) * p carries over to (v + 1) * 10p when next + 1 <= (v + 1) * 10. */
  lemma ScaleBound(v: nat, next: nat, p: nat, r: nat)
    requires next + 1 <= (v + 1) * 10 && r < (next + 1) * p
    ensures r < (v + 1) * (10 * p)
  {
    MulMonotonic(next + 1, (v + 1) * 10, p);
    assert ((v + 1) * 10) * p == (v + 1) * (10 * p);
  }

  /**
   * The operand after the editing bytes `cs`, starting from `v`. Each byte
   * adds at most one decimal digit, so `n` bytes leave it below
   * (v + 1) * 10^n.
   */
  function Typed(v: nat, cs: seq<byte>): (r: nat)
    requires AllEdits(cs)
    ensures r < (v + 1) * Pow10(|cs|)
    decreases cs
  {
    if cs == [] then v
    else
      var next := if cs[0] == BACKSPACE then DropDigit(v) else PushDigit(v, DigitValue(cs[0]));
      var r := Typed(next, cs[1..]);
      ScaleBound(v, next, Pow10(|cs| - 1), r);
      r
  }

  /** The value of a string of decimal digits, most significant first. */
  function Decimal(ds: seq<byte>): nat
    requires forall i :: 0 <= i < |ds| ==> IsDigit(ds[i])
  {
    if ds == [] then 0 else DigitValue(ds[0]) * Pow10(|ds| - 1) + Decimal(ds[1..])
  }

  /** Typing digits after the operand `v` shifts `v` left and appends their value. */
  lemma {:induction false} TypedDigits(v: nat, ds: seq<byte>)
    requires forall i :: 0 <= i < |ds| ==> IsDigit(ds[i])
    ensures AllEdits(ds) && Typed(v, ds) == v * Pow10(|ds|) + Decimal(ds)
    decreases ds
  {
    if ds != [] {
      var d, rest := DigitValue(ds[0]), ds[1..];
      var p := Pow10(|rest|);
      TypedDigits(PushDigit(v, d), rest);
      assert Typed(v, ds) == (v * 10 + d) * p + Decimal(rest);
      assert Decimal(ds) == d * p + Decimal(rest);
      assert Pow10(|ds|) == 10 * p;
      ShiftDigit(v, d, p);
    }
  }

  lemma ShiftDigit(v: nat, d: nat, p: nat)
    ensures (v * 10 + d) * p == v * (10 * p) + d * p
  {
  }

  /** From a cleared operand, typing digits yields exactly their decimal value. */
  lemma TypedFromZero(ds: seq<byte>)
    requires forall i :: 0 <= i < |ds| ==> IsDigit(ds[i])
    ensures AllEdits(ds) && Typed(0, ds) == Decimal(ds)
  {
    TypedDigits(0, ds);
    assert 0 * Pow10(|ds|) == 0;
  }

  /** Typing after some edits continues from the operand those edits left. */
  lemma {:induction false} TypedAppend(v: nat, cs: seq<byte>, more: seq<byte>)
    requires AllEdits(cs) && AllEdits(more)
    ensures AllEdits(cs + more) && Typed(v, cs + more) == Typed(Typed(v, cs), more)
    decreases cs
  {
    if cs != [] {
      assert (cs + more)[1..] == cs[1..] + more;
      var next := if cs[0] == BACKSPACE then DropDigit(v) else PushDigit(v, DigitValue(cs[0]));
      TypedAppend(next, cs[1..], more);
    } else {
      assert cs + more == more;
    }
  }

  /** A digit followed by a backspace leaves the operand as if neither had been typed. */
  lemma DigitThenBackspace(v: nat, cs: seq<byte>, d: byte)
    requires AllEdits(cs) && IsDigit(d)
    ensures AllEdits(cs + [d, BACKSPACE]) && Typed(v, cs + [d, BACKSPACE]) == Typed(v, cs)
  {
    var before := Typed(v, cs);
    TypedAppend(v, cs, [d, BACKSPACE]);
    BackspaceUndoesDigit(before, DigitValue(d));
    assert [d, BACKSPACE][1..] == [BACKSPACE];
    assert Typed(PushDigit(before, DigitValue(d)), [BACKSPACE]) == before;
  }
}
