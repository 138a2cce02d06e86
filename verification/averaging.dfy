/**
 * The moving-average filter `averager`: a circular buffer of N = 5 readings
 * with a write index `p` and a `first` flag. The first call after a reset
 * seeds every slot with its reading (warm start); each later call overwrites
 * one slot, oldest first, and every call returns the mean of the slots.
 *
 * The ghost `history` records the readings since the last seeding;
 * `Window(history)` says which of them each slot holds.
 */
module Averaging {

  /** The window size, `N` in the firmware. */
  const N: nat := 5

  /** The sum of a sequence of readings. */
  function Sum(s: seq<real>): real
  {
    if s == [] then 0.0 else s[0] + Sum(s[1..])
  }

  lemma {:induction false} SumAppend(a: seq<real>, b: seq<real>)
    ensures Sum(a + b) == Sum(a) + Sum(b)
  {
    if a == [] {
      assert a + b == b;
    } else {
      assert (a + b)[1..] == a[1..] + b;
      SumAppend(a[1..], b);
    }
  }

  lemma {:induction false} SumConstant(n: nat, v: real)
    ensures Sum(seq(n, _ => v)) == n as real * v
  {
    if n > 0 {
      assert seq(n, _ => v)[1..] == seq(n - 1, _ => v);
      SumConstant(n - 1, v);
      assert seq(n, _ => v)[0] == v;
    }
  }

  /**
   * The reading slot `j` holds after the readings `h` (oldest first, the
   * seed first of all): the latest reading written to slot `j`, where the
   * reading at index t >= 1 went to slot t % N, or the seed when slot `j`
   * has not been written since seeding.
   */
  function Slot(h: seq<real>, j: nat): (r: real)
    requires 1 <= |h| && j < N
    ensures exists t :: 0 <= t < |h| && h[t] == r
  {
    var t := (|h| - 1) - ((|h| - 1 - j) % N);
    if t >= 0 then h[t] else h[0]
  }

  /** The contents of the whole buffer after the readings `h`. */
  function Window(h: seq<real>): (w: seq<real>)
    requires 1 <= |h|
    ensures |w| == N
  {
    seq(N, j requires 0 <= j < N => Slot(h, j))
  }

  /** Seeding with `v` fills every slot with `v`. */
  lemma WindowSeed(v: real)
    ensures Window([v]) == seq(N, _ => v)
  {
    forall j | 0 <= j < N
      ensures Window([v])[j] == v
    {
      assert (0 - j) % N == N - j || j == 0;
    }
  }

  /** One more reading lands in slot |h| % N; every other slot keeps its reading. */
  lemma SlotStep(h: seq<real>, v: real, j: nat)
    requires 1 <= |h| && j < N
    ensures Slot(h + [v], j) == if j == |h| % N then v else Slot(h, j)
  {
    var L := |h|;
    var m, a := (L - 1 - j) / N, (L - 1 - j) % N;
    assert L - 1 - j == N * m + a;
    assert L == N * (L / N) + L % N;
    if a == N - 1 {
      assert L - j == N * (m + 1);
      assert j == L % N;
    } else {
      assert (L - j) % N == a + 1;
      assert j != L % N;
    }
  }

  /** One more reading overwrites slot |h| % N and no other slot. */
  lemma WindowStep(h: seq<real>, v: real)
    requires 1 <= |h|
    ensures Window(h + [v]) == Window(h)[|h| % N := v]
  {
    forall j | 0 <= j < N
      ensures Window(h + [v])[j] == Window(h)[|h| % N := v][j]
    {
      SlotStep(h, v, j);
    }
  }

  /** Before the buffer has wrapped, it holds the readings so far and the seed in the slots not yet written. */
  lemma WindowEarly(h: seq<real>)
    requires 1 <= |h| <= N
    ensures Window(h) == h + seq(N - |h|, _ => h[0])
  {
    var L := |h|;
    forall j | 0 <= j < N
      ensures Window(h)[j] == (h + seq(N - L, _ => h[0]))[j]
    {
      if j < L {
        assert (L - 1 - j) % N == L - 1 - j;
      } else {
        assert (L - 1 - j) % N == L - 1 - j + N;
      }
    }
  }

  lemma NextIndex(n: nat)
    ensures (n % N + 1) % N == (n + 1) % N
  {
    assert n == N * (n / N) + n % N;
  }

  /** Indices within N of each other that agree modulo N are equal. */
  lemma ModUnique(a: int, b: int)
    requires a % N == b % N && a - N < b < a + N
    ensures a == b
  {
    assert a == N * (a / N) + a % N;
    assert b == N * (b / N) + b % N;
  }

  /** Once the buffer has wrapped, slot `j` holds the reading at offset (j - |h|) mod N of the last N. */
  lemma LateSlot(h: seq<real>, j: nat)
    requires N <= |h| && j < N
    ensures Slot(h, j) == h[|h| - N + (j - |h|) % N]
  {
    var L := |h|;
    var m := (L - 1 - j) / N;
    var t := (L - 1) - ((L - 1 - j) % N);
    var u := L - N + (j - L) % N;
    assert L - 1 - j == N * m + (L - 1 - j) % N;
    assert t == j + N * m;
    assert j - L == N * ((j - L) / N) + (j - L) % N;
    assert u == j - N * ((j - L) / N + 1);
    ModUnique(u, t);
  }

  /**
   * Once N readings have followed the seed's position, the buffer holds the
   * last N readings, rotated so that the oldest sits at the write index.
   */
  lemma WindowLate(h: seq<real>)
    requires N <= |h|
    ensures var last, k := h[|h| - N..], (0 - |h|) % N;
      Window(h) == last[k..] + last[..k]
  {
    var L := |h|;
    var last, k := h[L - N..], (0 - L) % N;
    assert 0 - L == N * ((0 - L) / N) + k;
    forall j | 0 <= j < N
      ensures Window(h)[j] == (last[k..] + last[..k])[j]
    {
      LateSlot(h, j);
      assert (j - L) % N == if j < N - k then j + k else j + k - N;
    }
  }

  /** While the buffer has not wrapped, the slot sum weights the seed by the unwritten slots. */
  lemma WarmStartSum(h: seq<real>)
    requires 1 <= |h| <= N
    ensures Sum(Window(h)) == (N - |h| + 1) as real * h[0] + Sum(h[1..])
  {
    WindowEarly(h);
    SumAppend(h, seq(N - |h|, _ => h[0]));
    SumConstant(N - |h|, h[0]);
  }

  /** Once the buffer has wrapped, the slot sum is the sum of the last N readings. */
  lemma SteadySum(h: seq<real>)
    requires N <= |h|
    ensures Sum(Window(h)) == Sum(h[|h| - N..])
  {
    var last, k := h[|h| - N..], (0 - |h|) % N;
    WindowLate(h);
    SumAppend(last[k..], last[..k]);
    SumAppend(last[..k], last[k..]);
    assert last[..k] + last[k..] == last;
  }

  lemma Distribute(n: real, m: real)
    ensures (n + 1.0) * m == n * m + m
  {
  }

  /** A sequence whose elements all lie in [lo, hi] sums to between |w| * lo and |w| * hi. */
  lemma {:induction false} SumBetween(w: seq<real>, lo: real, hi: real)
    requires forall i :: 0 <= i < |w| ==> lo <= w[i] <= hi
    ensures |w| as real * lo <= Sum(w) <= |w| as real * hi
  {
    if w != [] {
      SumBetween(w[1..], lo, hi);
      Distribute(|w[1..]| as real, lo);
      Distribute(|w[1..]| as real, hi);
    }
  }

  /** The positions of a smallest and a largest element of `w`. */
  lemma {:induction false} Extremes(w: seq<real>) returns (least: nat, most: nat)
    requires 1 <= |w|
    ensures least < |w| && most < |w|
    ensures forall i :: 0 <= i < |w| ==> w[least] <= w[i] <= w[most]
  {
    if |w| == 1 {
      least, most := 0, 0;
    } else {
      var l, m := Extremes(w[1..]);
      least := if w[0] <= w[l + 1] then 0 else l + 1;
      most := if w[m + 1] <= w[0] then 0 else m + 1;
    }
  }

  /** Some reading since seeding is at most the slot sum over N, and some reading is at least it. */
  lemma WindowRange(h: seq<real>)
    requires 1 <= |h|
    ensures exists i :: 0 <= i < |h| && N as real * h[i] <= Sum(Window(h))
    ensures exists j :: 0 <= j < |h| && Sum(Window(h)) <= N as real * h[j]
  {
    var w := Window(h);
    var least, most := Extremes(w);
    SumBetween(w, w[least], w[most]);
    var i :| 0 <= i < |h| && h[i] == Slot(h, least);
    var j :| 0 <= j < |h| && h[j] == Slot(h, most);
    assert N as real * h[i] <= Sum(w);
    assert Sum(w) <= N as real * h[j];
  }

  /**
   * What the filter returns after the readings `h`: the mean of the buffer.
   * It never leaves the range of the readings since seeding.
   */
  function Smoothed(h: seq<real>): (r: real)
    requires 1 <= |h|
    ensures exists i :: 0 <= i < |h| && h[i] <= r
    ensures exists j :: 0 <= j < |h| && r <= h[j]
  {
    WindowRange(h);
    Sum(Window(h)) / (N as real)
  }

  /** A freshly seeded filter returns exactly its seed. */
  lemma SeedMean(v: real)
    ensures Smoothed([v]) == v
  {
    WarmStartSum([v]);
  }

  /**
   * Until the buffer wraps, the result is the mean of the readings so far
   * with the seed counted once more for every slot not yet overwritten.
   */
  lemma WarmStartMean(h: seq<real>)
    requires 1 <= |h| <= N
    ensures Smoothed(h) == ((N - |h| + 1) as real * h[0] + Sum(h[1..])) / (N as real)
  {
    WarmStartSum(h);
  }

  /** Once N readings have followed the seed's slot, the result is the mean of the last N readings. */
  lemma SteadyMean(h: seq<real>)
    requires N <= |h|
    ensures Smoothed(h) == Sum(h[|h| - N..]) / (N as real)
  {
    SteadySum(h);
  }

  class MovingAverage {
    var data: array<real>
    var p: int
    var first: bool
    /** The readings since the filter was last seeded, oldest first. */
    ghost var history: seq<real>

    ghost predicate Valid()
      reads this, data
    {
      && data.Length == N
      && 0 <= p < N
      && (!first ==> 1 <= |history| && p == |history| % N && data[..] == Window(history))
    }

    /** The zero-initialised globals `first = true`, `data[N]`, `p = 0`. */
    constructor ()
      ensures Valid() && fresh(data)
      ensures first && p == 0 && data[..] == seq(N, _ => 0.0)
    {
      data := new real[N](_ => 0.0);
      p := 0;
      first := true;
      history := [];
    }

    /** `averager(value)`: store the reading and return the mean of the buffer. */
    method Average(value: real) returns (r: real)
      requires Valid()
      modifies this, data
      ensures Valid() && data == old(data) && !first
      ensures old(first) ==> history == [value] && p == 1 && data[..] == seq(N, _ => value) && r == value
      ensures !old(first) ==>
        && history == old(history) + [value]
        && p == (old(p) + 1) % N
        && data[..] == old(data[..])[old(p) := value]
      ensures r == Sum(data[..]) / (N as real)
      ensures r == Smoothed(history)
    {
      if first {
        first := false;
        for i := 0 to N
          modifies data
          invariant forall k :: 0 <= k < i ==> data[k] == value
        {
          data[i] := value;
        }
        p := 1;
        history := [value];
        WindowSeed(value);
        assert data[..] == seq(N, _ => value);
      } else {
        ghost var h := history;
        data[p] := value;
        assert data[..] == Window(h)[|h| % N := value];
        WindowStep(h, value);
        history := h + [value];
        NextIndex(|h|);
        p := (p + 1) % N;
      }

      r := Mean();
      assert data[..] == Window(history);
      if old(first) {
        SeedMean(value);
      }
    }

    /** The mean of the N slots, summed in slot order. */
    method Mean() returns (r: real)
      requires data.Length == N
      ensures r == Sum(data[..]) / (N as real)
    {
      var result := 0.0;
      for i := 0 to N
        invariant result == Sum(data[..i])
      {
        assert data[..i + 1] == data[..i] + [data[i]];
        SumAppend(data[..i], [data[i]]);
        result := result + data[i];
      }
      assert data[..N] == data[..];
      r := result / (N as real);
    }
  }
}
