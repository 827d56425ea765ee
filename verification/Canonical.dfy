/** The canonical digest: history sorted by (begin, source, id), encoded and folded. */
module Canonical {
  import opened Words
  import opened Observations
  import opened Codec
  import opened Buffers
  import opened Sorting
  import opened Digest
  import Folds

  predicate Precedes(a: Observation, b: Observation) {
    if a.begin != b.begin then a.begin < b.begin
    else if a.source != b.source then a.source < b.source
    else a.id < b.id
  }

  /** The records one after another. */
  function Stream(obs: seq<Observation>): (bytes: seq<u8>)
    ensures |bytes| == RECORD_SIZE * |obs|
  {
    if |obs| == 0 then [] else Stream(obs[..|obs| - 1]) + Encode(obs[|obs| - 1])
  }

  /** `d` is the digest of some canonical order of the history; ties may come in any order. */
  ghost predicate IsDigest(history: seq<Observation>, d: u64) {
    exists r :: Sorts(Precedes, history, r) && d == DigestOf(OFFSET_BASIS, Stream(r))
  }

  method CanonicalDigest(history: seq<Observation>) returns (value: u64)
    ensures IsDigest(history, value)
  {
    hide DigestOf;
    hide Stream;
    hide Encode;
    var obs := Sort(Precedes, history);
    var d := new Digest64();
    NothingDigested();
    assert obs[..0] == [];
    for i := 0 to |obs|
      invariant d.h == DigestOf(OFFSET_BASIS, Stream(obs[..i]))
    {
      var enc := new Writer();
      EncodeObservation(enc, obs[i]);
      assert enc.bytes == Encode(obs[i]);
      d.Put(enc.bytes);
      AnotherDigested(obs, i);
    }
    assert obs[..|obs|] == obs;
    value := d.h;
  }

  lemma NothingDigested()
    ensures DigestOf(OFFSET_BASIS, Stream([])) == OFFSET_BASIS
  {
  }

  lemma AnotherDigested(obs: seq<Observation>, i: nat)
    requires i < |obs|
    ensures DigestOf(DigestOf(OFFSET_BASIS, Stream(obs[..i])), Encode(obs[i]))
         == DigestOf(OFFSET_BASIS, Stream(obs[..i + 1]))
  {
    hide Encode;
    assert obs[..i + 1][..i] == obs[..i];
    Folds.FoldConcatenation(Mix, OFFSET_BASIS, Stream(obs[..i]), Encode(obs[i]));
  }

  /** Ascending by begin, then source, then id. */
  ghost predicate CanonicallyOrdered(obs: seq<Observation>) {
    forall i, j :: 0 <= i < j < |obs| ==>
      var a, b := obs[i], obs[j];
      || a.begin < b.begin
      || (a.begin == b.begin && a.source < b.source)
      || (a.begin == b.begin && a.source == b.source && a.id <= b.id)
  }

  lemma SortedIsCanonical(obs: seq<Observation>)
    ensures Sorted(Precedes, obs) <==> CanonicallyOrdered(obs)
  {
  }

  /** The digests of a history are those of its records in any ascending (begin, source, id) order. */
  lemma DigestOfOrderedHistory(history: seq<Observation>, d: u64)
    ensures IsDigest(history, d) <==>
      exists r :: CanonicallyOrdered(r) && multiset(r) == multiset(history)
        && d == DigestOf(0xcbf29ce484222325, Stream(r))
  {
    hide Stream;
    hide DigestOf;
    hide Precedes;
    hide CanonicallyOrdered;
    forall r
      ensures Sorts(Precedes, history, r) <==> CanonicallyOrdered(r) && multiset(r) == multiset(history)
    {
      SortedIsCanonical(r);
    }
  }

  /** Different observations never share begin, source and id. */
  ghost predicate DistinctKeys(history: seq<Observation>) {
    forall x, y :: x in history && y in history && x != y ==>
      x.begin != y.begin || x.source != y.source || x.id != y.id
  }

  /** Histories that are permutations of each other have one and the same digest when keys are distinct. */
  lemma DigestIgnoresOrder(a: seq<Observation>, b: seq<Observation>, x: u64, y: u64)
    requires multiset(a) == multiset(b) && DistinctKeys(a)
    requires IsDigest(a, x) && IsDigest(b, y)
    ensures x == y
  {
    hide DigestOf;
    hide Stream;
    var r :| Sorts(Precedes, a, r) && x == DigestOf(OFFSET_BASIS, Stream(r));
    var t :| Sorts(Precedes, b, t) && y == DigestOf(OFFSET_BASIS, Stream(t));
    forall p, q | p in r && q in r && p != q
      ensures Precedes(p, q) || Precedes(q, p)
    {
      assert p in multiset(a) && q in multiset(a);
    }
    SortedIsUnique(Precedes, r, t);
  }

  lemma DistinctIdsOneDigest(history: seq<Observation>)
    requires forall i, j :: 0 <= i < j < |history| ==> history[i].id != history[j].id
    ensures forall x, y :: IsDigest(history, x) && IsDigest(history, y) ==> x == y
  {
    hide IsDigest;
    forall x, y | IsDigest(history, x) && IsDigest(history, y)
      ensures x == y
    {
      DigestIgnoresOrder(history, history, x, y);
    }
  }

  /** One changed byte anywhere in the canonical stream changes the digest. */
  lemma ChangedStreamChangesDigest(obs: seq<Observation>, k: nat, b: u8)
    requires k < |Stream(obs)|
    ensures DigestOf(OFFSET_BASIS, Stream(obs)[k := b]) == DigestOf(OFFSET_BASIS, Stream(obs)) <==> b == Stream(obs)[k]
  {
    ChangedByteChangesDigest(OFFSET_BASIS, Stream(obs), k, b);
  }

  // ----- wall-clock time -----

  const WALL_TIME: nat := 48

  /** The same observation seen at another wall-clock time. */
  function At(o: Observation, wallTime: i64): Observation {
    o.(wallTime := wallTime)
  }

  lemma {:induction false} FieldsBeforeWallTime(o: Observation, wallTime: i64, k: nat)
    requires k <= WALL_TIME
    ensures EncodeFields(At(o, wallTime), k) == EncodeFields(o, k)
  {
    if k > 0 {
      FieldsBeforeWallTime(o, wallTime, k - 1);
      SameField(o, wallTime, k - 1);
      hide Word;
    }
  }

  lemma SameField(o: Observation, wallTime: i64, k: nat)
    requires k < WALL_TIME
    ensures Word(At(o, wallTime), k) == Word(o, k)
  {
  }

  /** The wall-clock time is the last field of a record. */
  lemma RecordEndsInWallTime(o: Observation)
    ensures Encode(o) == EncodeFields(o, WALL_TIME) + LittleEndian(SignedToWord(o.wallTime), 8)
  {
    hide LittleEndian;
    assert Word(o, WALL_TIME) == SignedToWord(o.wallTime) && FIELDS == WALL_TIME + 1;
    hide Word;
  }

  /** The two times differ in byte m only. */
  ghost predicate OneByteApart(v: i64, w: i64, m: nat) {
    && v != w && m < 8
    && LittleEndian(SignedToWord(w), 8) == LittleEndian(SignedToWord(v), 8)[m := LittleEndian(SignedToWord(w), 8)[m]]
  }

  /** One byte of the wall-clock time is one byte of the record. */
  lemma WallTimeByte(o: Observation, wallTime: i64, m: nat)
    requires OneByteApart(o.wallTime, wallTime, m)
    ensures Offset(WALL_TIME) + m < RECORD_SIZE
    ensures Encode(At(o, wallTime))
         == Encode(o)[Offset(WALL_TIME) + m := LittleEndian(SignedToWord(wallTime), 8)[m]]
  {
    hide LittleEndian;
    hide Encode;
    FieldsBeforeWallTime(o, wallTime, WALL_TIME);
    RecordEndsInWallTime(o);
    RecordEndsInWallTime(At(o, wallTime));
    hide EncodeFields;
    hide SignedToWord;
  }

  /** And it is a different byte. */
  lemma WallTimeByteDiffers(o: Observation, wallTime: i64, m: nat)
    requires OneByteApart(o.wallTime, wallTime, m)
    ensures Offset(WALL_TIME) + m < RECORD_SIZE
    ensures Encode(o)[Offset(WALL_TIME) + m] != LittleEndian(SignedToWord(wallTime), 8)[m]
  {
    hide LittleEndian;
    hide Encode;
    hide Decode;
    WallTimeByte(o, wallTime, m);
    DecodeInvertsEncode(o);
    DecodeInvertsEncode(At(o, wallTime));
    var record, q := Encode(o), Offset(WALL_TIME) + m;
    assert record[q := record[q]] == record;
  }

  /** Replacing one observation replaces its record. */
  lemma {:induction false} StreamUpdate(obs: seq<Observation>, p: nat, o: Observation, q: nat, b: u8)
    requires p < |obs| && q < RECORD_SIZE && Encode(o) == Encode(obs[p])[q := b]
    ensures RECORD_SIZE * p + q < |Stream(obs)|
    ensures Stream(obs)[RECORD_SIZE * p + q] == Encode(obs[p])[q]
    ensures Stream(obs[p := o]) == Stream(obs)[RECORD_SIZE * p + q := b]
    decreases |obs|
  {
    hide Encode;
    var n := |obs| - 1;
    if p < n {
      StreamUpdate(obs[..n], p, o, q, b);
      assert obs[p := o][..n] == obs[..n][p := o];
    } else {
      assert obs[p := o][..n] == obs[..n];
    }
  }

  /** No two observations share begin, source and id. */
  ghost predicate KeysApart(history: seq<Observation>) {
    forall i, j :: 0 <= i < j < |history| ==>
      history[i].begin != history[j].begin || history[i].source != history[j].source || history[i].id != history[j].id
  }

  lemma StillDistinct(history: seq<Observation>, k: nat, wallTime: i64)
    requires k < |history| && KeysApart(history)
    ensures DistinctKeys(history[k := At(history[k], wallTime)])
  {
    var other := history[k := At(history[k], wallTime)];
    forall p, q | p in other && q in other && p != q
      ensures p.begin != q.begin || p.source != q.source || p.id != q.id
    {
      var i :| 0 <= i < |other| && other[i] == p;
      var j :| 0 <= j < |other| && other[j] == q;
      var a, b := history[i], history[j];
      assert i < j ==> a.begin != b.begin || a.source != b.source || a.id != b.id;
    }
  }

  lemma {:induction false} ReplacedSorts(history: seq<Observation>, k: nat, wallTime: i64, r: seq<Observation>)
    returns (p: nat)
    requires k < |history| && Sorts(Precedes, history, r)
    ensures p < |r| && r[p] == history[k]
    ensures Sorts(Precedes, history[k := At(history[k], wallTime)], r[p := At(r[p], wallTime)])
  {
    assert history[k] in multiset(history);
    p :| 0 <= p < |r| && r[p] == history[k];
    var o := At(history[k], wallTime);
    UpdateMultiset(history, k, o);
    UpdateMultiset(r, p, o);
    var t := r[p := o];
    forall i, j | 0 <= i < j < |t|
      ensures !Precedes(t[j], t[i])
    {
      assert !Precedes(r[j], r[i]);
    }
  }

  lemma UpdateMultiset<T>(s: seq<T>, k: nat, x: T)
    requires k < |s|
    ensures multiset(s[k := x]) == multiset(s) - multiset{s[k]} + multiset{x}
  {
    assert s == s[..k] + [s[k]] + s[k + 1..];
    assert s[k := x] == s[..k] + [x] + s[k + 1..];
  }

  /**
   Wall-clock time is part of the digest: two histories that differ in a single byte of one
   observation's wall-clock time never have the same digest.
   */
  lemma {:induction false} WallTimeIsDigested(history: seq<Observation>, k: nat, wallTime: i64, m: nat, x: u64, y: u64)
    requires k < |history| && KeysApart(history) && OneByteApart(history[k].wallTime, wallTime, m)
    requires IsDigest(history, x) && IsDigest(history[k := At(history[k], wallTime)], y)
    ensures x != y
  {
    hide Encode;
    hide OneByteApart;
    hide Stream;
    hide DigestOf;
    hide Precedes;
    hide LittleEndian;
    var other := history[k := At(history[k], wallTime)];
    var r :| Sorts(Precedes, history, r) && x == DigestOf(OFFSET_BASIS, Stream(r));
    var p := ReplacedSorts(history, k, wallTime, r);
    var r' := r[p := At(r[p], wallTime)];
    StillDistinct(history, k, wallTime);
    DigestIgnoresOrder(other, other, y, DigestOf(OFFSET_BASIS, Stream(r')));
    WallTimeByte(r[p], wallTime, m);
    WallTimeByteDiffers(r[p], wallTime, m);
    var q, b := Offset(WALL_TIME) + m, LittleEndian(SignedToWord(wallTime), 8)[m];
    StreamUpdate(r, p, At(r[p], wallTime), q, b);
    ChangedStreamChangesDigest(r, RECORD_SIZE * p + q, b);
  }
}
