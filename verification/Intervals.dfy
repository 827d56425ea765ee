/** Half-open tick intervals, and the set of ticks a list of them covers. */
module Intervals {
  import opened Words

  type Tick = u64

  datatype Interval = Interval(begin: Tick, end: Tick) {
    predicate IsEmpty() { end <= begin }

    function Duration(): Tick {
      if end >= begin then end - begin else 0
    }

    predicate Contains(t: int) { begin <= t < end }
  }

  function Max(a: int, b: int): int { if a < b then b else a }
  function Min(a: int, b: int): int { if b < a then b else a }

  /** The common part; an empty interval when there is none, also for inverted arguments. */
  function Intersect(a: Interval, b: Interval): (x: Interval)
    ensures forall t: int :: x.Contains(t) <==> a.Contains(t) && b.Contains(t)
    ensures x.begin <= x.end
  {
    var lo := Max(a.begin, b.begin);
    var hi := Min(a.end, b.end);
    Interval(lo, if hi < lo then lo else hi)
  }

  // ----- the simple reading: sets of ticks -----

  ghost predicate InRange(lo: int, hi: int, t: int) { lo <= t < hi }

  ghost function Between(lo: int, hi: int): set<int> {
    set t: int | lo <= t < hi && InRange(lo, hi, t)
  }

  lemma {:induction false} CountBetween(lo: int, hi: int)
    ensures |Between(lo, hi)| == Max(0, hi - lo)
    decreases hi - lo
  {
    if hi <= lo {
      assert Between(lo, hi) == {};
    } else {
      CountBetween(lo, hi - 1);
      assert Between(lo, hi) == Between(lo, hi - 1) + {hi - 1};
    }
  }

  ghost predicate Covers(ivs: seq<Interval>, t: int) {
    exists i :: 0 <= i < |ivs| && ivs[i].Contains(t)
  }

  /** Every tick that lies in one of the intervals. */
  ghost function Covered(ivs: seq<Interval>): (ticks: set<int>)
    ensures forall t :: t in ticks <==> Covers(ivs, t)
  {
    set t: int | 0 <= t < U64_LIMIT && Covers(ivs, t)
  }

  lemma CoveredConcatenation(a: seq<Interval>, b: seq<Interval>)
    ensures Covered(a + b) == Covered(a) + Covered(b)
  {
    forall t
      ensures t in Covered(a + b) <==> t in Covered(a) + Covered(b)
    {
      if Covers(a, t) {
        var i :| 0 <= i < |a| && a[i].Contains(t);
        assert (a + b)[i] == a[i];
      }
      if Covers(b, t) {
        var i :| 0 <= i < |b| && b[i].Contains(t);
        assert (a + b)[|a| + i] == b[i];
      }
    }
  }

  lemma CoveredOne(iv: Interval)
    ensures Covered([iv]) == Between(iv.begin, iv.end)
    ensures |Covered([iv])| == iv.Duration()
  {
    assert forall t :: Covers([iv], t) <==> [iv][0].Contains(t);
    assert Covered([iv]) == Between(iv.begin, iv.end);
    CountBetween(iv.begin, iv.end);
  }

  lemma Monotone<T>(a: set<T>, b: set<T>)
    requires a <= b
    ensures |a| <= |b|
  {
    assert b == a + (b - a);
  }

  lemma DisjointUnion<T>(a: set<T>, b: set<T>)
    requires a !! b
    ensures |a + b| == |a| + |b|
  {
  }

  /** A set of ticks never has 2^64 members, so its size always fits a uint64. */
  lemma TicksFit(ivs: seq<Interval>)
    ensures |Covered(ivs)| < U64_LIMIT
  {
    CountBetween(0, U64_LIMIT - 1);
    assert Covered(ivs) <= Between(0, U64_LIMIT - 1);
    Monotone(Covered(ivs), Between(0, U64_LIMIT - 1));
  }

  /** `overlap_duration`: the length of the intersection counts the common ticks. */
  lemma OverlapDuration(a: Interval, b: Interval)
    ensures Intersect(a, b).Duration() == |Covered([a]) * Covered([b])|
    ensures Intersect(a, b).IsEmpty() <==> Covered([a]) !! Covered([b])
  {
    var x := Intersect(a, b);
    CoveredOne(a);
    CoveredOne(b);
    CoveredOne(x);
    assert Covered([x]) == Covered([a]) * Covered([b]) by {
      assert forall t :: x.Contains(t) <==> t in Covered([x]);
      assert forall t :: a.Contains(t) <==> t in Covered([a]);
      assert forall t :: b.Contains(t) <==> t in Covered([b]);
    }
  }
}
