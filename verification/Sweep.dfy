/** The sort-and-sweep union and the two-pointer intersection over tick intervals. */
module Sweep {
  import opened Words
  import opened Intervals
  import opened Sorting

  /** Order by begin, then by end. */
  predicate Earlier(a: Interval, b: Interval) {
    if a.begin != b.begin then a.begin < b.begin else a.end < b.end
  }

  /** Non-empty, in order, and each over before the next begins; touching is allowed. */
  ghost predicate Separated(ivs: seq<Interval>) {
    && (forall i :: 0 <= i < |ivs| ==> !ivs[i].IsEmpty())
    && (forall i, j :: 0 <= i < j < |ivs| ==> ivs[i].end <= ivs[j].begin)
  }

  // ----- merge -----

  method MergeIntervals(ivs: seq<Interval>) returns (out: seq<Interval>)
    ensures Separated(out)
    ensures Covered(out) == Covered(ivs)
  {
    var sorted := Sort(Earlier, ivs);
    out := [];
    for i := 0 to |sorted|
      invariant Separated(out)
      invariant forall k :: i <= k < |sorted| ==> StartsAfter(out, sorted[k])
      invariant Covered(out) == Covered(sorted[..i])
    {
      var iv := sorted[i];
      ghost var was := out;
      if iv.end <= iv.begin {
      } else if out == [] || iv.begin >= out[|out| - 1].end {
        out := out + [iv];
      } else if iv.end > out[|out| - 1].end {
        out := out[|out| - 1 := Interval(out[|out| - 1].begin, iv.end)];
      }
      MergeStep(was, iv, out);
      assert sorted[..i + 1] == sorted[..i] + [iv];
      CoveredConcatenation(sorted[..i], [iv]);
    }
    assert sorted[..|sorted|] == sorted;
    SameMembersCover(sorted, ivs);
  }

  /** `iv` begins no earlier than the last interval of `out`. */
  ghost predicate StartsAfter(out: seq<Interval>, iv: Interval) {
    out != [] ==> out[|out| - 1].begin <= iv.begin
  }

  /** One pass of the loop adds exactly the ticks of `iv`. */
  lemma MergeStep(was: seq<Interval>, iv: Interval, out: seq<Interval>)
    requires Separated(was) && StartsAfter(was, iv)
    requires out == if iv.end <= iv.begin then was
      else if was == [] || iv.begin >= was[|was| - 1].end then was + [iv]
      else if iv.end > was[|was| - 1].end then was[|was| - 1 := Interval(was[|was| - 1].begin, iv.end)]
      else was
    ensures Separated(out) && Covered(out) == Covered(was) + Covered([iv])
    ensures out == was || out[|out| - 1].begin <= iv.begin
  {
    if iv.end <= iv.begin {
      EmptyCoversNothing(iv, Covered(was));
    } else if was == [] || iv.begin >= was[|was| - 1].end {
      AppendLast(was, iv);
    } else if iv.end > was[|was| - 1].end {
      ExtendKeepsSeparated(was, iv);
      ExtendLast(was, iv);
    } else {
      InsideLast(was, iv);
    }
  }

  lemma EmptyCoversNothing(iv: Interval, ticks: set<int>)
    requires iv.IsEmpty()
    ensures ticks + Covered([iv]) == ticks
  {
    CoveredOne(iv);
  }

  lemma AppendLast(out: seq<Interval>, iv: Interval)
    requires Separated(out) && !iv.IsEmpty()
    requires out == [] || out[|out| - 1].end <= iv.begin
    ensures Separated(out + [iv])
    ensures Covered(out + [iv]) == Covered(out) + Covered([iv])
  {
    CoveredConcatenation(out, [iv]);
  }

  lemma ExtendKeepsSeparated(out: seq<Interval>, iv: Interval)
    requires Separated(out) && out != []
    requires out[|out| - 1].begin <= iv.begin < out[|out| - 1].end < iv.end
    ensures Separated(out[|out| - 1 := Interval(out[|out| - 1].begin, iv.end)])
  {
  }

  lemma ExtendLast(out: seq<Interval>, iv: Interval)
    requires out != []
    requires out[|out| - 1].begin <= iv.begin < out[|out| - 1].end < iv.end
    ensures Covered(out[|out| - 1 := Interval(out[|out| - 1].begin, iv.end)]) == Covered(out) + Covered([iv])
  {
    var last, init := out[|out| - 1], out[..|out| - 1];
    var wide := Interval(last.begin, iv.end);
    assert out == init + [last];
    assert out[|out| - 1 := wide] == init + [wide];
    CoveredConcatenation(init, [last]);
    CoveredConcatenation(init, [wide]);
    CoveredOne(last);
    CoveredOne(wide);
    CoveredOne(iv);
    assert Between(last.begin, iv.end) == Between(last.begin, last.end) + Between(iv.begin, iv.end);
  }

  lemma InsideLast(out: seq<Interval>, iv: Interval)
    requires out != []
    requires out[|out| - 1].begin <= iv.begin && iv.end <= out[|out| - 1].end
    ensures Covered(out) == Covered(out) + Covered([iv])
  {
    CoveredOne(iv);
    forall t | t in Covered([iv])
      ensures t in Covered(out)
    {
      assert out[|out| - 1].Contains(t);
    }
  }

  /** What is covered depends only on which intervals occur, not on order or repetition. */
  lemma SameMembersCover(a: seq<Interval>, b: seq<Interval>)
    requires (forall x :: x in a <==> x in b) || multiset(a) == multiset(b)
    ensures Covered(a) == Covered(b)
  {
    if multiset(a) == multiset(b) {
      forall x
        ensures x in a <==> x in b
      {
        assert x in a <==> x in multiset(a);
      }
    }
    forall t
      ensures Covers(a, t) <==> Covers(b, t)
    {
      if Covers(a, t) {
        var i :| 0 <= i < |a| && a[i].Contains(t);
        assert a[i] in b;
      }
      if Covers(b, t) {
        var i :| 0 <= i < |b| && b[i].Contains(t);
        assert b[i] in a;
      }
    }
  }

  // ----- union -----

  /** The total is the number of covered ticks; it never leaves the uint64 range. */
  method UnionDuration(ivs: seq<Interval>) returns (total: Tick)
    ensures total == |Covered(ivs)|
  {
    total := 0;
    var merged := MergeIntervals(ivs);
    for i := 0 to |merged|
      invariant total == |Covered(merged[..i])|
    {
      assert merged[..i + 1] == merged[..i] + [merged[i]];
      SeparatedStep(merged, i);
      TicksFit(merged[..i + 1]);
      total := total + merged[i].Duration();
    }
    assert merged[..|merged|] == merged;
  }

  lemma SeparatedStep(ivs: seq<Interval>, i: nat)
    requires Separated(ivs) && i < |ivs|
    ensures |Covered(ivs[..i] + [ivs[i]])| == |Covered(ivs[..i])| + ivs[i].Duration()
  {
    CoveredConcatenation(ivs[..i], [ivs[i]]);
    CoveredOne(ivs[i]);
    forall t | Covers(ivs[..i], t)
      ensures t < ivs[i].begin
    {
      var k :| 0 <= k < i && ivs[..i][k].Contains(t);
      assert ivs[k].end <= ivs[i].begin;
    }
    DisjointUnion(Covered(ivs[..i]), Covered([ivs[i]]));
  }

  // ----- intersection of two unions -----

  /** The two-pointer walk counts exactly the ticks that lie in both unions. */
  method IntersectUnionDuration(a: seq<Interval>, b: seq<Interval>) returns (total: Tick)
    ensures total == |Covered(a) * Covered(b)|
  {
    hide Covered;
    hide Separated;
    var ma := MergeIntervals(a);
    var mb := MergeIntervals(b);
    total := 0;
    var i, j := 0, 0;
    assert ma[0..] == ma && mb[0..] == mb;
    while i < |ma| && j < |mb|
      invariant 0 <= i <= |ma| && 0 <= j <= |mb|
      invariant total + |Covered(ma[i..]) * Covered(mb[j..])| == |Covered(a) * Covered(b)|
      decreases |ma| - i + |mb| - j
    {
      var b0 := Max(ma[i].begin, mb[j].begin);
      var b1 := Min(ma[i].end, mb[j].end);
      CommonFits(a, b);
      AdvanceEither(ma, i, mb, j);
      if b1 > b0 {
        total := total + (b1 - b0);
      }
      if ma[i].end < mb[j].end { i := i + 1; } else { j := j + 1; }
    }
    NothingCommon(ma[i..], mb[j..]);
  }

  lemma NothingCommon(a: seq<Interval>, b: seq<Interval>)
    requires a == [] || b == []
    ensures Covered(a) * Covered(b) == {}
  {
  }

  lemma CommonFits(a: seq<Interval>, b: seq<Interval>)
    ensures |Covered(a) * Covered(b)| < U64_LIMIT
  {
    TicksFit(a);
    Monotone(Covered(a) * Covered(b), Covered(a));
  }

  lemma SwapCommon(a: seq<Interval>, b: seq<Interval>)
    ensures Covered(a) * Covered(b) == Covered(b) * Covered(a)
  {
  }

  /** The interval that ends first meets the rest of the other list only in its head. */
  lemma AdvanceFirst(ma: seq<Interval>, i: nat, mb: seq<Interval>, j: nat)
    requires Separated(ma) && Separated(mb)
    requires i < |ma| && j < |mb| && ma[i].end <= mb[j].end
    ensures |Covered(ma[i..]) * Covered(mb[j..])|
         == Max(0, Min(ma[i].end, mb[j].end) - Max(ma[i].begin, mb[j].begin))
            + |Covered(ma[i + 1..]) * Covered(mb[j..])|
  {
    var head, rest, common := ma[i], ma[i + 1..], Covered(mb[j..]);
    assert ma[i..] == [head] + rest;
    CoveredConcatenation([head], rest);
    HeadCommon(head, mb, j);
    HeadBeforeRest(ma, i);
    DisjointUnion(Covered([head]) * common, Covered(rest) * common);
    assert Covered(ma[i..]) * common == Covered([head]) * common + Covered(rest) * common;
  }

  /** One step of the walk: the heads' common ticks are counted and the head that ends first is passed. */
  lemma AdvanceEither(ma: seq<Interval>, i: nat, mb: seq<Interval>, j: nat)
    requires Separated(ma) && Separated(mb) && i < |ma| && j < |mb|
    ensures |Covered(ma[i..]) * Covered(mb[j..])|
         == Max(0, Min(ma[i].end, mb[j].end) - Max(ma[i].begin, mb[j].begin))
            + (if ma[i].end < mb[j].end then |Covered(ma[i + 1..]) * Covered(mb[j..])|
               else |Covered(ma[i..]) * Covered(mb[j + 1..])|)
  {
    hide Covered;
    hide Separated;
    if ma[i].end < mb[j].end {
      AdvanceFirst(ma, i, mb, j);
    } else {
      AdvanceFirst(mb, j, ma, i);
      SwapCommon(ma[i..], mb[j..]);
      SwapCommon(ma[i..], mb[j + 1..]);
    }
  }

  lemma HeadBeforeRest(ma: seq<Interval>, i: nat)
    requires Separated(ma) && i < |ma|
    ensures Covered([ma[i]]) !! Covered(ma[i + 1..])
  {
    CoveredOne(ma[i]);
    forall t | t in Covered(ma[i + 1..])
      ensures t !in Covered([ma[i]])
    {
      var k :| 0 <= k < |ma[i + 1..]| && ma[i + 1..][k].Contains(t);
      assert ma[i].end <= ma[i + 1 + k].begin;
    }
  }

  lemma HeadCommon(head: Interval, mb: seq<Interval>, j: nat)
    requires Separated(mb) && j < |mb| && head.end <= mb[j].end
    ensures |Covered([head]) * Covered(mb[j..])|
         == Max(0, Min(head.end, mb[j].end) - Max(head.begin, mb[j].begin))
  {
    var lo, hi := Max(head.begin, mb[j].begin), Min(head.end, mb[j].end);
    CoveredOne(head);
    CountBetween(lo, hi);
    HeadMeetsHead(head, mb, j);
    assert Covered([head]) * Covered(mb[j..]) == Between(lo, hi);
  }

  lemma HeadMeetsHead(head: Interval, mb: seq<Interval>, j: nat)
    requires Separated(mb) && j < |mb| && head.end <= mb[j].end
    ensures forall t :: head.Contains(t) ==> (Covers(mb[j..], t) <==> mb[j].Contains(t))
  {
    forall t | head.Contains(t)
      ensures Covers(mb[j..], t) <==> mb[j].Contains(t)
    {
      if mb[j].Contains(t) {
        assert mb[j..][0].Contains(t);
      }
      if Covers(mb[j..], t) {
        var k :| 0 <= k < |mb[j..]| && mb[j..][k].Contains(t);
        assert mb[j + k].Contains(t);
        assert k == 0 || mb[j].end <= mb[j + k].begin;
      }
    }
  }

  // ----- consequences -----

  /** Two lists with the same members, in any order and any number of times, have one union and one overlap. */
  lemma UnionIgnoresOrderAndRepetition(a: seq<Interval>, b: seq<Interval>, other: seq<Interval>)
    requires forall x :: x in a <==> x in b
    ensures |Covered(a)| == |Covered(b)|
    ensures |Covered(a) * Covered(other)| == |Covered(b) * Covered(other)|
    ensures |Covered(a) * Covered(other)| == |Covered(other) * Covered(a)|
  {
    SameMembersCover(a, b);
    SwapCommon(a, other);
  }

  /** A separated list is never longer in total than from its first begin to its last end. */
  lemma SeparatedTotal(ivs: seq<Interval>)
    requires Separated(ivs) && ivs != []
    ensures |Covered(ivs)| <= ivs[|ivs| - 1].end - ivs[0].begin
  {
    var lo, hi := ivs[0].begin, ivs[|ivs| - 1].end;
    forall t | Covers(ivs, t)
      ensures InRange(lo, hi, t)
    {
      var k :| 0 <= k < |ivs| && ivs[k].Contains(t);
      assert k == 0 || ivs[0].end <= ivs[k].begin;
      assert k == |ivs| - 1 || ivs[k].end <= ivs[|ivs| - 1].begin;
    }
    CountBetween(lo, hi);
    Monotone(Covered(ivs), Between(lo, hi));
  }
}
