/**
 * The median filters of astrounit: a fixed ring of N slots, all zero at
 * the start, and a cursor. Each sample overwrites the slot at the cursor,
 * the cursor advances modulo N, and the filter answers the median of all
 * N slots, never-written zeros included.
 */
module Medians {
  import opened Wrappers
  import opened Numeric
  import opened Angles

  predicate Sorted(t: seq<real>)
  {
    forall i, j :: 0 <= i < j < |t| ==> t[i] <= t[j]
  }

  /** Every value of r is at least lo when x and every value of u are, and r holds u's values and x. */
  lemma AllAtLeast(lo: real, r: seq<real>, u: seq<real>, x: real)
    requires multiset(r) == multiset(u) + multiset{x}
    requires lo <= x && forall k :: 0 <= k < |u| ==> lo <= u[k]
    ensures forall k :: 0 <= k < |r| ==> lo <= r[k]
  {
    forall k | 0 <= k < |r|
      ensures lo <= r[k]
    {
      assert r[k] in multiset(r);
      if r[k] != x {
        assert r[k] in multiset(u);
        var j :| 0 <= j < |u| && u[j] == r[k];
      }
    }
  }

  /** x put into its place in the sorted sequence t. */
  function Insert(x: real, t: seq<real>): (r: seq<real>)
    requires Sorted(t)
    ensures Sorted(r)
    ensures multiset(r) == multiset(t) + multiset{x}
    ensures |r| == |t| + 1
  {
    if t == [] || x <= t[0] then [x] + t
    else
      var tail := t[1..];
      assert t == [t[0]] + tail;
      var rest := Insert(x, tail);
      AllAtLeast(t[0], rest, tail, x);
      var r := [t[0]] + rest;
      assert Sorted(r) by {
        forall i, j | 0 <= i < j < |r|
          ensures r[i] <= r[j]
        {
          if i > 0 {
            assert r[i] == rest[i - 1] && r[j] == rest[j - 1];
          } else {
            assert r[j] == rest[j - 1];
          }
        }
      }
      r
  }

  /** The samples in ascending order. */
  function SortSeq(s: seq<real>): (r: seq<real>)
    ensures Sorted(r)
    ensures multiset(r) == multiset(s)
    ensures |r| == |s|
  {
    if s == [] then []
    else
      assert s == s[..|s| - 1] + [s[|s| - 1]];
      Insert(s[|s| - 1], SortSeq(s[..|s| - 1]))
  }

  /** The head of an ascending sequence is at most any value it holds. */
  lemma HeadIsLeast(a: seq<real>, x: real)
    requires Sorted(a) && x in multiset(a)
    ensures a[0] <= x
  {
    assert x in a;
    var i :| 0 <= i < |a| && a[i] == x;
  }

  /** Dropping the head removes exactly one copy of it. */
  lemma TailMultiset(a: seq<real>)
    requires |a| > 0
    ensures multiset(a[1..]) == multiset(a) - multiset{a[0]}
  {
    assert a == [a[0]] + a[1..];
    assert multiset(a) == multiset{a[0]} + multiset(a[1..]);
  }

  /** Two ascending sequences holding the same values are the same sequence. */
  lemma {:induction false} SortedUnique(a: seq<real>, b: seq<real>)
    requires Sorted(a) && Sorted(b)
    requires multiset(a) == multiset(b)
    ensures a == b
  {
    assert |a| == |b| by {
      assert |multiset(a)| == |a| && |multiset(b)| == |b|;
    }
    if a != [] {
      assert a[0] == b[0] by {
        HeadIsLeast(a, b[0]);
        HeadIsLeast(b, a[0]);
      }
      var ta, tb := a[1..], b[1..];
      TailMultiset(a);
      TailMultiset(b);
      assert multiset(ta) == multiset(tb);
      assert Sorted(ta) by {
        forall i, j | 0 <= i < j < |ta| ensures ta[i] <= ta[j] {
          assert ta[i] == a[i + 1] && ta[j] == a[j + 1];
        }
      }
      assert Sorted(tb) by {
        forall i, j | 0 <= i < j < |tb| ensures tb[i] <= tb[j] {
          assert tb[i] == b[i + 1] && tb[j] == b[j + 1];
        }
      }
      SortedUnique(ta, tb);
      assert a == [a[0]] + ta && b == [b[0]] + tb;
    }
  }

  datatype MedianError = EmptyInput

  /**
   * stats.Median: the middle of the sorted samples, or the mean of the two
   * middles when there is an even number of them; an error when there are
   * none.
   */
  function MedianOf(s: seq<real>): (r: Result<real, MedianError>)
    ensures r.Err? <==> |s| == 0
  {
    if |s| == 0 then Err(EmptyInput) else Ok(Middle(SortSeq(s)))
  }

  /** The middle element, or the mean of the two middle elements when the length is even. */
  function Middle(t: seq<real>): real
    requires |t| > 0
  {
    var l := |t|;
    if l % 2 == 0 then (t[l / 2 - 1] + t[l / 2]) / 2.0 else t[l / 2]
  }

  /** The median depends only on which values the slots hold, not on where. */
  lemma MedianIgnoresOrder(s1: seq<real>, s2: seq<real>)
    requires multiset(s1) == multiset(s2)
    ensures MedianOf(s1) == MedianOf(s2)
  {
    SortedUnique(SortSeq(s1), SortSeq(s2));
  }

  /** The median lies between the smallest and the largest sample. */
  lemma MedianWithinSamples(s: seq<real>)
    requires |s| > 0
    ensures exists i :: 0 <= i < |s| && s[i] <= MedianOf(s).value
    ensures exists j :: 0 <= j < |s| && MedianOf(s).value <= s[j]
  {
    var t := SortSeq(s);
    var l := |t|;
    assert t[0] in multiset(s) && t[l - 1] in multiset(s);
    var i :| 0 <= i < |s| && s[i] == t[0];
    var j :| 0 <= j < |s| && s[j] == t[l - 1];
    assert s[i] <= MedianOf(s).value <= s[j];
  }

  function Zeros(n: nat): (z: seq<real>)
    ensures |z| == n && forall i :: 0 <= i < n ==> z[i] == 0.0
  {
    seq(n, _ => 0.0)
  }

  /** v placed before or after n - 1 zeros, whichever keeps the order. */
  function ZerosWith(n: nat, v: real): (t: seq<real>)
    requires n >= 1
    ensures |t| == n
  {
    if v <= 0.0 then [v] + Zeros(n - 1) else Zeros(n - 1) + [v]
  }

  lemma ZerosWithSorts(n: nat, v: real)
    requires n >= 1
    ensures SortSeq(Zeros(n)[0 := v]) == ZerosWith(n, v)
  {
    var s := Zeros(n)[0 := v];
    var t := ZerosWith(n, v);
    assert s == [v] + Zeros(n - 1);
    assert multiset(t) == multiset(s);
    assert Sorted(t) by {
      forall i, j | 0 <= i < j < |t| ensures t[i] <= t[j] {
        if v <= 0.0 {
          assert t[j] == 0.0;
        } else {
          assert t[i] == 0.0;
        }
      }
    }
    SortedUnique(t, SortSeq(s));
  }

  /**
   * The zero bias: with three or more slots, the first sample written into
   * a fresh filter leaves the median at zero, whatever its value.
   */
  lemma FirstSampleMasked(n: nat, v: real)
    requires n >= 3
    ensures MedianOf(Zeros(n)[0 := v]) == Ok(0.0)
  {
    ZerosWithSorts(n, v);
    MiddleOfZerosWith(n, v);
  }

  lemma MiddleOfZerosWith(n: nat, v: real)
    requires n >= 3
    ensures Middle(ZerosWith(n, v)) == 0.0
  {
    var t := ZerosWith(n, v);
    var k := n / 2;
    assert 1 <= k <= n - 2;
    assert n % 2 == 0 ==> 1 <= k - 1;
    assert forall i :: 1 <= i <= n - 2 ==> t[i] == 0.0;
  }

  /**
   * Median(samples), MedianInt(samples) and MedianAngle(samples): the ring
   * and its cursor. Each Go closure owns one ring; a MedianFilter is used
   * through one of its three Update methods.
   */
  class MedianFilter {
    const slots: array<real>
    var ptr: nat

    ghost predicate Valid()
      reads this
    {
      ptr < slots.Length
    }

    /** samples is positive: Go's make panics below zero, and the first update indexes an empty slice at zero. */
    constructor (samples: nat)
      requires samples > 0
      ensures Valid() && fresh(slots)
      ensures slots.Length == samples && slots[..] == Zeros(samples) && ptr == 0
    {
      slots := new real[samples](_ => 0.0);
      ptr := 0;
    }

    /** Writes v at the cursor and advances the cursor modulo N. */
    method Write(v: real)
      requires Valid()
      modifies this, slots
      ensures Valid()
      ensures slots[..] == old(slots[..])[old(ptr) := v]
      ensures ptr == (old(ptr) + 1) % slots.Length
    {
      slots[ptr] := v;
      ptr := ptr + 1;
      if ptr >= slots.Length {
        ptr := 0;
      }
    }

    method Update(v: real) returns (r: Result<real, MedianError>)
      requires Valid()
      modifies this, slots
      ensures Valid()
      ensures slots[..] == old(slots[..])[old(ptr) := v]
      ensures ptr == (old(ptr) + 1) % slots.Length
      ensures r.Ok? && r == MedianOf(slots[..])
    {
      Write(v);
      r := MedianOf(slots[..]);
    }

    /** MedianInt: stores the integer as a float and truncates the median toward zero. */
    method UpdateInt(v: int) returns (r: Result<int, MedianError>)
      requires Valid()
      modifies this, slots
      ensures Valid()
      ensures slots[..] == old(slots[..])[old(ptr) := v as real]
      ensures ptr == (old(ptr) + 1) % slots.Length
      ensures r.Ok? && r.value == Trunc(MedianOf(slots[..]).value)
    {
      Write(v as real);
      var m := MedianOf(slots[..]);
      r := Ok(Trunc(m.value));
    }

    /** MedianAngle: stores degree values and answers a Degree angle. */
    method UpdateAngle(v: Angle) returns (r: Result<Angle, MedianError>)
      requires Valid()
      modifies this, slots
      ensures Valid()
      ensures slots[..] == old(slots[..])[old(ptr) := Deg(v)]
      ensures ptr == (old(ptr) + 1) % slots.Length
      ensures r.Ok? && r.value == Angle(Degree, MedianOf(slots[..]).value)
    {
      Write(ToDegree(v).value);
      var m := MedianOf(slots[..]);
      r := Ok(NewAngle(Degree, m.value));
    }
  }
}
