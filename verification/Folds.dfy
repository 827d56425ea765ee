/** Byte-at-a-time folds: the shape shared by the checksum and the digest. */
module Folds {
  import opened Words

  function Fold<R>(step: (R, u8) -> R, seed: R, data: seq<u8>): R {
    if |data| == 0 then seed else step(Fold(step, seed, data[..|data| - 1]), data[|data| - 1])
  }

  /** Different registers stay different whatever byte comes next. */
  ghost predicate RegisterInjective<R(!new)>(step: (R, u8) -> R) {
    forall c, d, b :: step(c, b) == step(d, b) ==> c == d
  }

  /** Different bytes fed to one register give different registers. */
  ghost predicate ByteInjective<R(!new)>(step: (R, u8) -> R) {
    forall c, a, b :: step(c, a) == step(c, b) ==> a == b
  }

  lemma {:induction false} FoldConcatenation<R>(step: (R, u8) -> R, seed: R, a: seq<u8>, b: seq<u8>)
    ensures Fold(step, seed, a + b) == Fold(step, Fold(step, seed, a), b)
  {
    if |b| == 0 {
      assert a + b == a;
    } else {
      assert (a + b)[..|a + b| - 1] == a + b[..|b| - 1];
      FoldConcatenation(step, seed, a, b[..|b| - 1]);
    }
  }

  lemma {:induction false} FoldInjective<R(!new)>(step: (R, u8) -> R, c: R, d: R, data: seq<u8>)
    requires RegisterInjective(step)
    requires Fold(step, c, data) == Fold(step, d, data)
    ensures c == d
  {
    if |data| > 0 {
      var init, last := data[..|data| - 1], data[|data| - 1];
      assert step(Fold(step, c, init), last) == step(Fold(step, d, init), last);
      FoldInjective(step, c, d, init);
    }
  }

  /** One changed byte always changes the fold. */
  lemma ChangedByteChangesFold<R(!new)>(step: (R, u8) -> R, seed: R, a: seq<u8>, k: nat, b: u8)
    requires RegisterInjective(step) && ByteInjective(step)
    requires k < |a| && a[k] != b
    ensures Fold(step, seed, a) != Fold(step, seed, a[k := b])
  {
    var before, after := a[..k], a[k + 1..];
    var c := Fold(step, seed, before);
    FoldAround(step, seed, before, a[k], after);
    FoldAround(step, seed, before, b, after);
    assert a == before + [a[k]] + after;
    assert a[k := b] == before + [b] + after;
    if Fold(step, seed, a) == Fold(step, seed, a[k := b]) {
      FoldInjective(step, step(c, a[k]), step(c, b), after);
      assert false;
    }
  }

  lemma FoldAround<R>(step: (R, u8) -> R, seed: R, before: seq<u8>, b: u8, after: seq<u8>)
    ensures Fold(step, seed, before + [b] + after)
         == Fold(step, step(Fold(step, seed, before), b), after)
  {
    FoldConcatenation(step, seed, before + [b], after);
    assert (before + [b])[..|before|] == before;
  }
}
