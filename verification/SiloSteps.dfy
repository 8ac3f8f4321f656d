/// Calls, reads, and the taking and giving back of locks keep the invariant.

module SiloSteps {
  import opened Tidwords
  import opened Silo
  import opened SiloInvariant

  /** What every other executor may rely on. */
  ghost predicate Guarantee(sh: Shared, sh': Shared, t: nat) {
    forall u: nat :: u != t ==> Rely(sh, sh', u)
  }

  /** The obligation of a step of executor `t`. */
  ghost predicate Keeps(sh: Shared, t: nat, p: Pair) {
    SharedInv(p.sh) && LocalInv(p.sh, t, p.l) && Guarantee(sh, p.sh, t)
  }

  lemma OwnKeeps(sh: Shared, t: nat, l: Local)
    requires SharedInv(sh) && LocalInv(sh, t, l)
    ensures Keeps(sh, t, Pair(sh, l))
  {
    forall u: nat | u != t ensures Rely(sh, sh, u) {
      assert TableMoves(sh, sh, u);
    }
  }

  // ----- calls -----

  lemma BeginKeeps(sh: Shared, t: nat, l: Local)
    requires SharedInv(sh) && LocalInv(sh, t, l) && l.pc.Ready?
    ensures Keeps(sh, t, Pair(sh, CallBegin(l)))
  {
    OwnKeeps(sh, t, CallBegin(l));
  }

  lemma ReadKeeps(sh: Shared, t: nat, l: Local, k: nat)
    requires SharedInv(sh) && LocalInv(sh, t, l) && l.pc.Ready? && k < |sh.table|
    ensures Keeps(sh, t, Pair(sh, CallRead(l, k)))
  {
    hide Less, Ver;
    OwnKeeps(sh, t, CallRead(l, k));
  }

  lemma WriteKeeps(sh: Shared, t: nat, l: Local, k: nat, v: Value)
    requires SharedInv(sh) && LocalInv(sh, t, l) && Enabled(sh, t, l, Write(k, v))
    ensures Keeps(sh, t, Pair(sh, CallWrite(l, k, v)))
  {
    if SearchWrite(l.wset, k) < 0 {
      DistinctAppend(l.wset, WriteElement(k, if v == [] then l.dflt else v));
    }
    OwnKeeps(sh, t, CallWrite(l, k, v));
  }

  lemma SortKeepsElements(wset: seq<WriteElement>)
    ensures forall w :: w in SortByKey(wset) ==> w in wset
  {
    SortPermutes(wset);
    forall w | w in SortByKey(wset) ensures w in wset {
      assert w in multiset(SortByKey(wset));
    }
  }

  lemma {:induction false} SortKeepsDistinct(wset: seq<WriteElement>)
    requires DistinctWrites(wset)
    ensures DistinctWrites(SortByKey(wset))
  {
    if wset != [] {
      var front, w := wset[..|wset| - 1], wset[|wset| - 1];
      DistinctPrefix(wset, |front|);
      SortKeepsDistinct(front);
      SortKeepsElements(front);
      var q := SortByKey(front);
      forall j | 0 <= j < |q| ensures q[j].key != w.key {
        assert q[j] in front;
        var i :| 0 <= i < |front| && front[i] == q[j];
        assert ApartWrites(wset, i, |front|);
      }
      InsertKeepsDistinct(q, w);
    }
  }

  lemma InsertKeepsDistinct(wset: seq<WriteElement>, w: WriteElement)
    requires SortedByKey(wset) && DistinctWrites(wset) && forall j :: 0 <= j < |wset| ==> wset[j].key != w.key
    ensures DistinctWrites(InsertByKey(wset, w))
  {
    var p, r := InsertAt(wset, w.key), InsertByKey(wset, w);
    forall i, j ensures ApartWrites(r, i, j) {
      assert ApartWrites(wset, if i < p then i else i - 1, if j < p then j else j - 1);
    }
  }

  lemma SortOfTwo(wset: seq<WriteElement>)
    requires |wset| == 2 && wset[0].key < wset[1].key
    ensures SortByKey(wset) == wset
  {
    var one := wset[..1];
    assert SortByKey(one) == InsertByKey(SortByKey(one[..0]), wset[0]);
    assert SortByKey(one) == one;
    assert InsertByKey(one, wset[1]) == wset;
  }

  lemma ValidationKeeps(sh: Shared, t: nat, l: Local)
    requires SharedInv(sh) && LocalInv(sh, t, l) && l.pc.Ready? && l.status.InFlight?
    ensures Keeps(sh, t, Pair(sh, CallValidation(l)))
  {
    var l' := CallValidation(l);
    SortKeepsDistinct(l.wset);
    SortKeepsElements(l.wset);
    forall i | 0 <= i < |l'.wset| ensures l'.wset[i].key < |sh.table| && |l'.wset[i].val| <= sh.width {
      assert l'.wset[i] in l.wset;
    }
    OwnKeeps(sh, t, l');
  }

  lemma AbortKeeps(sh: Shared, t: nat, l: Local)
    requires SharedInv(sh) && LocalInv(sh, t, l) && l.pc.Failed?
    ensures Keeps(sh, t, Pair(sh, CallAbort(l)))
  {
    hide Less, Ver;
    OwnKeeps(sh, t, CallAbort(l));
  }

  lemma LeaderKeeps(sh: Shared, t: nat, l: Local)
    requires SharedInv(sh) && LocalInv(sh, t, l) && l.pc.Ready? && t == 0
    ensures Keeps(sh, t, Pair(sh, l.(pc := Scan(sh.epoch, 1))))
  {
    OwnKeeps(sh, t, l.(pc := Scan(sh.epoch, 1)));
  }

  // ----- `read` -----

  lemma ReadLoadKeeps(sh: Shared, t: nat, l: Local, k: nat)
    requires SharedInv(sh) && LocalInv(sh, t, l) && k < |sh.table|
    requires l.pc == ReadLoad(k) || (l.pc.ReadCopy? && l.pc.key == k)
    ensures Keeps(sh, t, Pair(sh, l.(pc := AfterLoad(k, sh.table[k].word))))
  {
    hide Less, Ver;
    OwnKeeps(sh, t, l.(pc := AfterLoad(k, sh.table[k].word)));
  }

  lemma ReadByteKeeps(sh: Shared, t: nat, l: Local, k: nat, expected: Tidword, buf: Value)
    requires SharedInv(sh) && LocalInv(sh, t, l) && k < |sh.table|
    requires l.pc == ReadCopy(k, expected, buf) && |buf| < |sh.table[k].val|
    ensures Keeps(sh, t, Pair(sh, TickReadCopy(sh, l, k, expected, buf)))
  {
    hide Less, Ver;
    var l' := TickReadCopy(sh, l, k, expected, buf);
    assert CopyInv(sh.table, sh.meta, l'.pc);
    OwnKeeps(sh, t, l');
  }

  /** The recheck found the word it started from: the copy is the value that came with that word. */
  lemma ReadDoneKeeps(sh: Shared, t: nat, l: Local, k: nat, expected: Tidword, buf: Value)
    requires SharedInv(sh) && LocalInv(sh, t, l) && k < |sh.table|
    requires l.pc == ReadCopy(k, expected, buf) && |buf| == |sh.table[k].val| && expected == sh.table[k].word
    ensures Keeps(sh, t, Pair(sh, TickReadCopy(sh, l, k, expected, buf)))
  {
    hide Less, Ver;
    var l' := TickReadCopy(sh, l, k, expected, buf);
    assert RecordInv(sh, k);
    assert buf == sh.table[k].val;
    assert ReadInv(sh, ReadElement(k, buf, expected), sh.meta[k].src);
    forall i | 0 <= i < |l'.rset| ensures ReadInv(sh, l'.rset[i], l'.srcs[i]) {
      if i < |l.rset| {
        assert ReadInv(sh, l.rset[i], l.srcs[i]);
      }
    }
    forall i, j ensures ApartReads(l'.rset, i, j) {
      assert ApartReads(l.rset, i, j);
    }
    OwnKeeps(sh, t, l');
  }

  lemma ReadCopyKeeps(sh: Shared, t: nat, l: Local, k: nat, expected: Tidword, buf: Value)
    requires SharedInv(sh) && LocalInv(sh, t, l) && k < |sh.table| && l.pc == ReadCopy(k, expected, buf)
    ensures Keeps(sh, t, Pair(sh, TickReadCopy(sh, l, k, expected, buf)))
  {
    if |buf| < |sh.table[k].val| {
      ReadByteKeeps(sh, t, l, k, expected, buf);
    } else if expected == sh.table[k].word {
      ReadDoneKeeps(sh, t, l, k, expected, buf);
    } else {
      ReadLoadKeeps(sh, t, l, k);
    }
  }

  // ----- `lockWriteSet` and `unlockWriteSet` -----

  lemma LockLoadKeeps(sh: Shared, t: nat, l: Local, i: nat)
    requires SharedInv(sh) && LocalInv(sh, t, l) && l.pc == LockLoad(i) && AtWrite(sh, l, i)
    ensures Keeps(sh, t, Pair(sh, TickLockLoad(sh, l, i)))
  {
    OwnKeeps(sh, t, TickLockLoad(sh, l, i));
  }

  lemma UnlockLoadKeeps(sh: Shared, t: nat, l: Local, i: nat, end: nat)
    requires SharedInv(sh) && LocalInv(sh, t, l) && l.pc == UnlockLoad(i, end) && AtWrite(sh, l, i)
    ensures Keeps(sh, t, Pair(sh, TickUnlockLoad(sh, l, i, end)))
  {
    OwnKeeps(sh, t, TickUnlockLoad(sh, l, i, end));
  }

  ghost predicate MayRelock(sh: Shared, t: nat, k: nat, owner: int) {
    && SharedShape(sh) && k < |sh.table| && t < |sh.local|
    && (sh.meta[k].owner == -1 || sh.meta[k].owner == t) && (owner == -1 || owner == t)
    && !sh.meta[k].dirty
  }

  /** A lock bit is set by an executor before its serialization point, and cleared early only after an abort. */
  lemma RelockShared(sh: Shared, t: nat, k: nat, owner: int)
    requires SharedInv(sh) && MayRelock(sh, t, k, owner)
    requires forall j :: 0 <= j < |sh.log| && sh.log[j].thread == t && k in sh.log[j].puts ==>
               sh.log[j].outcome.Gone? || j <= sh.meta[k].src
    ensures SharedInv(Relock(sh, k, owner))
  {
    var sh' := Relock(sh, k, owner);
    forall i | 0 <= i < |sh.table| ensures RecordInv(sh', i) {
      assert RecordInv(sh, i);
    }
    forall j | 0 <= j < |sh.log| ensures LogInv(sh', j) {
      assert LogInv(sh, j);
    }
    forall j, i ensures LiveInv(sh'.meta, sh'.log, j, i) {
      assert LiveInv(sh.meta, sh.log, j, i);
    }
  }

  lemma RelockRely(sh: Shared, t: nat, k: nat, owner: int)
    requires SharedInv(sh) && MayRelock(sh, t, k, owner)
    ensures Guarantee(sh, Relock(sh, k, owner), t)
  {
    var sh' := Relock(sh, k, owner);
    forall u: nat | u != t ensures Rely(sh, sh', u) {
      forall j | 0 <= j < |sh.table|
        ensures RecordMoves(sh.table[j], sh.meta[j], sh'.table[j], sh'.meta[j], u) {}
    }
  }

  /** Reads, versions and bytes do not notice a lock bit. */
  lemma RelockReads(sh: Shared, t: nat, k: nat, owner: int, rset: seq<ReadElement>, srcs: seq<int>)
    requires MayRelock(sh, t, k, owner) && ReadsInv(sh, rset, srcs)
    ensures ReadsInv(Relock(sh, k, owner), rset, srcs)
  {
    forall j | 0 <= j < |rset| ensures ReadInv(Relock(sh, k, owner), rset[j], srcs[j]) {
      assert ReadInv(sh, rset[j], srcs[j]);
    }
  }

  lemma TakenLocks(sh: Shared, t: nat, wset: seq<WriteElement>, i: nat)
    requires SharedShape(sh) && i < |wset| && wset[i].key < |sh.table| && LocksInv(sh.meta, t, wset, 0, i)
    ensures LocksInv(Relock(sh, wset[i].key, t).meta, t, wset, 0, i + 1)
  {
    var meta' := Relock(sh, wset[i].key, t).meta;
    forall k | 0 <= k < |meta'| && meta'[k].owner == t ensures Holds(wset, 0, i + 1, k) {
      if k == wset[i].key {
        assert wset[i].key == k;
      } else {
        assert Holds(wset, 0, i, k);
      }
    }
  }

  lemma LockTakenKeeps(sh: Shared, t: nat, l: Local, i: nat, expected: Tidword)
    requires SharedInv(sh) && LocalInv(sh, t, l) && t < |sh.local|
    requires l.pc == LockTry(i, expected) && AtWrite(sh, l, i)
    requires !expected.lock && sh.table[l.wset[i].key].word == expected
    ensures Keeps(sh, t, TickLockTry(sh, t, l, i, expected))
  {
    hide Less, Ver;
    var k := l.wset[i].key;
    assert RecordInv(sh, k);
    RelockShared(sh, t, k, t);
    RelockRely(sh, t, k, t);
    LockTakenLocal(sh, t, l, i, expected);
  }

  lemma LockTakenLocal(sh: Shared, t: nat, l: Local, i: nat, expected: Tidword)
    requires SharedInv(sh) && LocalInv(sh, t, l)
    requires l.pc == LockTry(i, expected) && AtWrite(sh, l, i) && MayRelock(sh, t, l.wset[i].key, t)
    requires !expected.lock && sh.table[l.wset[i].key].word == expected
    ensures LocalInv(Relock(sh, l.wset[i].key, t), t, Taken(l, i, expected))
  {
    hide Less, Ver, LocksInv, ReadsInv, OverInv, BytesInv, PastInv, MaxInv, LocalShape, SharedInv;
    TakenLocks(sh, t, l.wset, i);
    RelockReads(sh, t, l.wset[i].key, t, l.rset, l.srcs);
    TakenRest(sh, t, l, i, expected);
  }

  lemma TakenRest(sh: Shared, t: nat, l: Local, i: nat, expected: Tidword)
    requires SharedInv(sh) && LocalInv(sh, t, l)
    requires l.pc == LockTry(i, expected) && AtWrite(sh, l, i)
    requires !expected.lock && sh.table[l.wset[i].key].word == expected
    ensures var l', sh' := Taken(l, i, expected), Relock(sh, l.wset[i].key, t);
            && LocalShape(|sh.table|, sh.width, t, l') && MaxInv(sh'.epoch, l')
            && OverInv(sh'.table, l'.pc, l'.over, l'.wset) && BytesInv(sh'.table, sh'.meta, t, l'.pc, l'.wset)
            && PastInv(sh'.log, sh'.meta, t, l'.entry, l'.mrctid)
  {
    hide LocksInv, ReadsInv, CopyInv, SeenInv, EpochInv, HeldInv, SettledInv, UnlockInv, FullInv, LogInv, LiveInv,
      OrdersInv, Max;
    var l' := Taken(l, i, expected);
    assert RecordInv(sh, l.wset[i].key);
    assert l'.over[..|l'.over| - 1] == l.over;
  }

  lemma LockRefusedKeeps(sh: Shared, t: nat, l: Local, i: nat, expected: Tidword)
    requires SharedInv(sh) && LocalInv(sh, t, l) && l.pc == LockTry(i, expected) && AtWrite(sh, l, i) && expected.lock
    ensures Keeps(sh, t, TickLockTry(sh, t, l, i, expected))
  {
    hide Less, Ver;
    OwnKeeps(sh, t, l.(status := Aborted, pc := if i > 0 then UnlockLoad(0, i) else Failed));
  }

  lemma LockTryKeeps(sh: Shared, t: nat, l: Local, i: nat, expected: Tidword)
    requires SharedInv(sh) && LocalInv(sh, t, l) && t < |sh.local|
    requires l.pc == LockTry(i, expected) && AtWrite(sh, l, i)
    ensures Keeps(sh, t, TickLockTry(sh, t, l, i, expected))
  {
    hide Less, Ver;
    if expected.lock {
      LockRefusedKeeps(sh, t, l, i, expected);
    } else if sh.table[l.wset[i].key].word == expected {
      LockTakenKeeps(sh, t, l, i, expected);
    } else {
      OwnKeeps(sh, t, l.(pc := LockTry(i, sh.table[l.wset[i].key].word)));
    }
  }

  lemma ReleasedLocks(sh: Shared, t: nat, wset: seq<WriteElement>, i: nat, end: nat)
    requires SharedShape(sh) && i < end <= |wset| && wset[i].key < |sh.table| && DistinctWrites(wset)
    requires LocksInv(sh.meta, t, wset, i, end)
    ensures LocksInv(Relock(sh, wset[i].key, -1).meta, t, wset, i + 1, end)
  {
    var meta' := Relock(sh, wset[i].key, -1).meta;
    forall j | i < j < |wset| ensures wset[j].key != wset[i].key {
      assert ApartWrites(wset, i, j);
    }
    forall k | 0 <= k < |meta'| && meta'[k].owner == t ensures Holds(wset, i + 1, end, k) {
      assert Holds(wset, i, end, k);
    }
  }

  lemma UnlockStoreKeeps(sh: Shared, t: nat, l: Local, i: nat, end: nat, w: Tidword)
    requires SharedInv(sh) && LocalInv(sh, t, l) && t < |sh.local|
    requires l.pc == UnlockStore(i, end, w) && AtWrite(sh, l, i)
    ensures Keeps(sh, t, TickUnlockStore(sh, l, i, end, w))
  {
    hide Less, Ver;
    var k := l.wset[i].key;
    assert sh.meta[k].owner == t && w == sh.table[k].word.(lock := false);
    RelockShared(sh, t, k, -1);
    RelockRely(sh, t, k, -1);
    ReleasedLocal(sh, t, l, i, end);
  }

  lemma ReleasedLocal(sh: Shared, t: nat, l: Local, i: nat, end: nat)
    requires SharedShape(sh) && LocalInv(sh, t, l) && t < |sh.local|
    requires l.pc.UnlockStore? && l.pc.i == i && l.pc.end == end && AtWrite(sh, l, i)
    ensures LocalInv(Relock(sh, l.wset[i].key, -1), t, l.(pc := if i + 1 < end then UnlockLoad(i + 1, end) else Failed))
  {
    hide ReadsInv, ReadsOk, SharedShape, Less, Ver;
    var k := l.wset[i].key;
    var sh' := Relock(sh, k, -1);
    var l' := l.(pc := if i + 1 < end then UnlockLoad(i + 1, end) else Failed);
    ReleasedLocks(sh, t, l.wset, i, end);
    assert sh.meta[k].owner == t && !sh.meta[k].dirty;
    if i + 1 == end {
      NothingHeld(sh'.meta, t, l.wset, end);
    }
    RelockReads(sh, t, k, -1, l.rset, l.srcs);
    assert PastInv(sh'.log, sh'.meta, t, l'.entry, l'.mrctid);
    assert BytesInv(sh'.table, sh'.meta, t, l'.pc, l'.wset);
  }

  lemma NothingHeld(meta: seq<Meta>, t: nat, wset: seq<WriteElement>, end: nat)
    requires LocksInv(meta, t, wset, end, end)
    ensures LocksInv(meta, t, wset, 0, 0)
  {
    forall k | 0 <= k < |meta| ensures meta[k].owner != t {
      assert !Holds(wset, end, end, k);
    }
  }
}
