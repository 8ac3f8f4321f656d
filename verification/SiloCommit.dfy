/// The steps from the serialization point to the last install keep the invariant.

module SiloCommit {
  import opened Tidwords
  import opened Silo
  import opened SiloInvariant
  import opened SiloSteps

  lemma {:induction false} PutsOf(wset: seq<WriteElement>)
    requires DistinctWrites(wset)
    ensures forall j :: 0 <= j < |wset| ==> wset[j].key in Puts(wset) && Puts(wset)[wset[j].key] == wset[j].val
    ensures forall k :: k in Puts(wset) ==> exists j :: 0 <= j < |wset| && wset[j].key == k
  {
    if wset != [] {
      var n := |wset| - 1;
      DistinctPrefix(wset, n);
      PutsOf(wset[..n]);
      assert forall j :: 0 <= j < n ==> wset[..n][j] == wset[j] && ApartWrites(wset, j, n);
      forall k | k in Puts(wset) ensures exists j :: 0 <= j < |wset| && wset[j].key == k {
        if k != wset[n].key {
          var j :| 0 <= j < n && wset[..n][j].key == k;
          assert wset[j].key == k;
        }
      }
    }
  }

  /** The same for a write set with whole values. */
  lemma PutsOfFull(wset: seq<WriteElement>, full: seq<WriteElement>)
    requires DistinctWrites(wset) && |full| == |wset| && forall j :: 0 <= j < |wset| ==> full[j].key == wset[j].key
    ensures forall j :: 0 <= j < |wset| ==> wset[j].key in Puts(full) && Puts(full)[wset[j].key] == full[j].val
    ensures forall k :: k in Puts(full) ==> exists j :: 0 <= j < |wset| && wset[j].key == k
  {
    forall i, j ensures ApartWrites(full, i, j) {
      assert ApartWrites(wset, i, j);
    }
    PutsOf(full);
    hide Puts;
    forall j | 0 <= j < |wset| ensures wset[j].key in Puts(full) && Puts(full)[wset[j].key] == full[j].val {
      assert full[j].key in Puts(full);
    }
    forall k | k in Puts(full) ensures exists j :: 0 <= j < |wset| && wset[j].key == k {
      var j :| 0 <= j < |full| && full[j].key == k;
      assert wset[j].key == k;
    }
  }

  // ----- a log that moves under an unchanged table -----

  lemma DoneMoves(init: seq<Tuple>, log: seq<Entry>, log': seq<Entry>, j: nat)
    requires LogMoves(log, log') && j < |log| && log[j].outcome.Done? && DoneInv(init, log, j)
    ensures log'[j].outcome.Done? && DoneInv(init, log', j)
  {
    var e := log[j];
    assert log'[j] == e;
    forall i | 0 <= i < |e.gets|
      ensures ReadOk(log', j, e.gets[i].key, e.srcs[i])
      ensures Source(init, log', e.gets[i].key, e.gets[i].val, e.gets[i].word, e.srcs[i])
    {
      ReadOkMoves(log, log', j, e.gets[i].key, e.srcs[i]);
      SourceMoves(init, log, log', e.gets[i].key, e.gets[i].val, e.gets[i].word, e.srcs[i]);
    }
  }

  lemma OversMove(init: seq<Tuple>, log: seq<Entry>, log': seq<Entry>, j: nat)
    requires LogMoves(log, log') && j < |log| && log[j].outcome.Done? && OversInv(init, log, j)
    ensures log'[j] == log[j] && OversInv(init, log', j)
  {
    hide Ver;
    var e := log[j];
    forall i | 0 <= i < |e.outcome.over|
      ensures Installed(init, log', e.writes[i].key, e.outcome.over[i], e.bases[i])
    {
      InstalledMoves(init, log, log', e.writes[i].key, e.outcome.over[i], e.bases[i]);
    }
  }

  /** An entry that commits is the last of its executor. */
  ghost predicate LastCommits(log: seq<Entry>, log': seq<Entry>) {
    forall i, j :: 0 <= i < j < |log| && i < |log'| && log[i].thread == log[j].thread && log'[i].outcome.Done? ==>
      log[i].outcome.Done?
  }

  lemma PrevMoves(log: seq<Entry>, log': seq<Entry>, j: nat)
    requires LogMoves(log, log') && j < |log| && log[j].outcome.Done? && PrevInv(log, j)
    requires LastCommits(log, log')
    ensures log'[j] == log[j] && PrevInv(log', j)
  {
    hide Ver;
    var prev := log[j].outcome.prev;
    if prev != ZERO {
      var i :| i < j && CommittedWord(log, log[j].thread, i, prev);
      assert log'[i].outcome == log[i].outcome;
      assert CommittedWord(log', log[j].thread, i, prev);
    }
  }

  /** The entries that are not touched keep their invariants, and the records do. */
  lemma LogMovesKeeps(sh: Shared, log': seq<Entry>)
    requires SharedInv(sh) && LogMoves(sh.log, log') && LastCommits(sh.log, log')
    ensures forall k :: 0 <= k < |sh.table| ==> RecordInv(sh.(log := log'), k)
    ensures forall j :: 0 <= j < |sh.log| && (log'[j] == sh.log[j] || !log'[j].outcome.Done?) ==>
              LogInv(sh.(log := log'), j)
  {
    var sh' := sh.(log := log');
    forall k | 0 <= k < |sh.table| ensures RecordInv(sh', k) {
      assert RecordInv(sh, k);
      var src := sh.meta[k].src;
      if src >= 0 {
        assert log'[src] == sh.log[src];
      }
    }
    forall j | 0 <= j < |sh.log| && (log'[j] == sh.log[j] || !log'[j].outcome.Done?) ensures LogInv(sh', j) {
      assert LogInv(sh, j);
      BasesMove(sh.init, sh.log, log', j);
      if log'[j].outcome.Done? {
        DoneMoves(sh.init, sh.log, log', j);
        OversMove(sh.init, sh.log, log', j);
        PrevMoves(sh.log, log', j);
      }
    }
  }

  lemma LogMovesRely(sh: Shared, log': seq<Entry>, t: nat)
    requires SharedShape(sh) && forall u: nat :: u != t ==> LogGrows(sh.log, log', u)
    ensures Guarantee(sh, sh.(log := log'), t)
  {
    var sh' := sh.(log := log');
    forall u: nat | u != t ensures Rely(sh, sh', u) {
      assert TableMoves(sh, sh', u);
    }
  }

  // ----- the serialization point -----

  lemma EpochLoadShared(sh: Shared, t: nat, l: Local)
    requires SharedInv(sh) && LocalInv(sh, t, l) && t < |sh.local| && l.pc.EpochLoad?
    ensures SharedInv(TickEpochLoad(sh, t, l).sh)
    ensures Guarantee(sh, TickEpochLoad(sh, t, l).sh, t)
  {
    hide LocksInv, PastInv, ReadsInv, CopyInv, MaxInv, PhaseInv, OverInv, EpochInv, NewerInv, ReadsOk, HeldInv,
      SettledInv, BytesInv, EntryInv, UnlockInv, FullInv, TailInv, RecordInv, Puts;
    var sh' := TickEpochLoad(sh, t, l).sh;
    var n := |sh.log|;
    assert LogMoves(sh.log, sh'.log);
    LogMovesKeeps(sh, sh'.log);
    LogMovesRely(sh, sh'.log, t);
    EpochLoadLive(sh, t, l);
    EpochLoadOrders(sh, sh'.log);
    forall j | 0 <= j <= n ensures LogInv(sh', j) {
      if j == n {
        PutsOfFull(l.wset, OverAll(sh.table, l.wset));
        EpochLoadBases(sh, t, l);
      }
    }
  }

  /** The executor holds what it writes, and its own commits are all installed: nobody comes between. */
  lemma HeldRecord(sh: Shared, t: nat, l: Local, i: nat)
    requires SharedInv(sh) && LocalInv(sh, t, l) && l.pc.EpochLoad? && i < |l.wset|
    ensures var k := l.wset[i].key;
            && k < |sh.table| == |sh.meta| && sh.meta[k].owner == t && !sh.meta[k].dirty
            && (forall j :: 0 <= j < |sh.log| && sh.meta[k].src < j && k in sh.log[j].puts ==> sh.log[j].outcome.Gone?)
  {
    hide Less, Ver, ReadsInv, CopyInv, MaxInv, PhaseInv, OverInv, SeenInv, EpochInv, NewerInv, ReadsOk, HeldInv;
    hide SettledInv, UnlockInv, FullInv, TailInv, RecordInv, LogInv, OrdersInv, Puts;
    var k := l.wset[i].key;
    forall j | 0 <= j < |sh.log| && sh.meta[k].src < j && k in sh.log[j].puts ensures sh.log[j].outcome.Gone? {
      assert LiveInv(sh.meta, sh.log, j, k);
    }
  }

  lemma RecordSource(sh: Shared, k: nat)
    requires SharedInv(sh) && k < |sh.table|
    ensures |sh.meta| == |sh.table|
    ensures !sh.meta[k].dirty ==>
              Source(sh.init, sh.log, k, sh.table[k].val, sh.table[k].word, sh.meta[k].src)
  {
    hide Ver, LogInv, LiveInv, OrdersInv, Source;
    assert RecordInv(sh, k);
  }

  lemma EpochLoadBases(sh: Shared, t: nat, l: Local)
    requires SharedInv(sh) && LocalInv(sh, t, l) && t < |sh.local| && l.pc.EpochLoad? && DistinctWrites(l.wset)
    ensures BasesInv(sh.init, TickEpochLoad(sh, t, l).sh.log, |sh.log|)
  {
    hide SharedInv, LocalInv, Over, Ver, Puts;
    var log' := TickEpochLoad(sh, t, l).sh.log;
    var n := |sh.log|;
    PutsOfFull(l.wset, OverAll(sh.table, l.wset));
    forall i | 0 <= i < |l.wset| ensures BaseInv(sh.init, log', n, i) {
      HeldRecord(sh, t, l, i);
      RecordSource(sh, l.wset[i].key);
    }
  }

  /** The executor holds every record that its new log entry writes. */
  lemma EpochLoadLive(sh: Shared, t: nat, l: Local)
    requires SharedInv(sh) && LocksInv(sh.meta, t, l.wset, 0, |l.wset|) && WriteShape(|sh.table|, sh.width, l.wset)
    ensures var sh' := TickEpochLoad(sh, t, l).sh; forall j, k :: LiveInv(sh'.meta, sh'.log, j, k)
  {
    var sh' := TickEpochLoad(sh, t, l).sh;
    PutsOfFull(l.wset, OverAll(sh.table, l.wset));
    forall j, k ensures LiveInv(sh'.meta, sh'.log, j, k) {
      if j == |sh.log| && k in Puts(OverAll(sh.table, l.wset)) {
        var i :| 0 <= i < |l.wset| && l.wset[i].key == k;
        assert sh.meta[l.wset[i].key].owner == t;
      } else {
        assert LiveInv(sh.meta, sh.log, j, k);
      }
    }
  }

  lemma EpochLoadOrders(sh: Shared, log': seq<Entry>)
    requires SharedInv(sh) && |log'| == |sh.log| + 1 && log'[..|sh.log|] == sh.log
    requires log'[|sh.log|].epoch == sh.epoch && !log'[|sh.log|].outcome.Done?
    ensures OrdersInv(log')
  {
    forall j | 0 <= j < |sh.log| ensures log'[j] == sh.log[j] && sh.log[j].epoch <= sh.epoch {
      assert LogInv(sh, j);
    }
    forall i, j ensures Ordered(log', i, j) {
      assert Ordered(sh.log, i, j);
    }
  }

  lemma EpochLoadLocal(sh: Shared, t: nat, l: Local)
    requires SharedInv(sh) && LocalInv(sh, t, l) && t < |sh.local| && l.pc.EpochLoad?
    ensures var p := TickEpochLoad(sh, t, l); LocalInv(p.sh, t, p.l)
  {
    hide ReadsInv, EpochInv, ReadsOk, EntryInv, FullInv, TailInv, LiveInv, Ver, Max, Puts, OverAll, Bases,
      SharedInv;
    var p := TickEpochLoad(sh, t, l);
    assert LogMoves(sh.log, p.sh.log);
    EpochLoadReads(sh, t, l, p.sh.log);
    EpochLoadEntry(sh, t, l);
    MineMoves(sh.log, p.sh.log, t, l.mrctid);
  }

  lemma EpochLoadEntry(sh: Shared, t: nat, l: Local)
    requires SharedInv(sh) && LocalInv(sh, t, l) && t < |sh.local| && l.pc.EpochLoad?
    ensures var p := TickEpochLoad(sh, t, l);
            && FullInv(p.l.entry, sh.width, p.l.wset, p.l.full) && TailInv(sh.table, p.l.entry, 0, p.l.wset, p.l.full)
            && EntryInv(p.sh.log, t, p.l) && PastInv(p.sh.log, sh.meta, t, p.l.entry, p.l.mrctid)
            && EpochInv(p.sh.log, sh.local, t, p.l)
            && HeldInv(sh.meta, l.wset, 0, |l.wset|, |sh.log|)
  {
    hide LocksInv, PhaseInv, OverInv, SeenInv, NewerInv, ReadsOk, SettledInv, BytesInv, UnlockInv, LogInv,
      LiveInv, OrdersInv, Over, Less, Puts;
    var p := TickEpochLoad(sh, t, l);
    forall k | 0 <= k < |sh.table| ensures sh.meta[k].src < |sh.log| {
      assert RecordInv(sh, k);
    }
    assert forall i :: 0 <= i < |l.rset| ==> ReadInv(sh, l.rset[i], l.srcs[i]);
  }

  lemma EpochLoadReads(sh: Shared, t: nat, l: Local, log': seq<Entry>)
    requires ReadsInv(sh, l.rset, l.srcs) && LogMoves(sh.log, log') && |log'| == |sh.log| + 1
    ensures ReadsInv(sh.(log := log'), l.rset, l.srcs)
    ensures ReadsOk(log', |sh.log|, l.rset, l.srcs, 0)
  {
    var sh' := sh.(log := log');
    forall i | 0 <= i < |l.rset| ensures ReadInv(sh', l.rset[i], l.srcs[i]) && l.srcs[i] < |sh.log| {
      assert ReadInv(sh, l.rset[i], l.srcs[i]);
      SourceMoves(sh.init, sh.log, log', l.rset[i].key, l.rset[i].val, l.rset[i].word, l.srcs[i]);
    }
  }

  lemma EpochLoadKeeps(sh: Shared, t: nat, l: Local)
    requires SharedInv(sh) && LocalInv(sh, t, l) && t < |sh.local| && l.pc.EpochLoad?
    ensures Keeps(sh, t, TickEpochLoad(sh, t, l))
  {
    EpochLoadShared(sh, t, l);
    EpochLoadLocal(sh, t, l);
  }

  lemma EpochStoreKeeps(sh: Shared, t: nat, l: Local, e: EpochField)
    requires SharedInv(sh) && LocalInv(sh, t, l) && t < |sh.local| && l.pc == EpochStore(e)
    ensures Keeps(sh, t, TickEpochStore(sh, t, l, e))
  {
    var sh' := TickEpochStore(sh, t, l, e).sh;
    LocalSlotShared(sh, sh'.local, sh.epoch);
    assert sh' == sh.(local := sh'.local, epoch := sh.epoch);
    LocalSlotReads(sh, sh'.local, sh.epoch, l.rset, l.srcs);
    EpochStoreLocal(sh, t, l, e);
    EpochStoreRely(sh, sh'.local, t);
  }

  lemma EpochStoreRely(sh: Shared, local: seq<EpochField>, t: nat)
    requires SharedShape(sh) && |local| == |sh.local|
    requires forall u :: 0 <= u < |local| && u != t ==> local[u] == sh.local[u]
    ensures Guarantee(sh, sh.(local := local), t)
  {
    var sh' := sh.(local := local);
    forall u: nat | u != t ensures Rely(sh, sh', u) {
      assert TableMoves(sh, sh', u);
    }
  }

  lemma EpochStoreLocal(sh: Shared, t: nat, l: Local, e: EpochField)
    requires LocalInv(sh, t, l) && t < |sh.local| && l.pc == EpochStore(e)
    requires ReadsInv(TickEpochStore(sh, t, l, e).sh, l.rset, l.srcs)
    ensures LocalInv(TickEpochStore(sh, t, l, e).sh, t, TickEpochStore(sh, t, l, e).l)
  {
    hide Less, Ver, FullInv, TailInv, LocksInv, PastInv, ReadsOk;
    var p := TickEpochStore(sh, t, l, e);
    assert EpochInv(p.sh.log, p.sh.local, t, p.l);
  }

  /** Epoch counters do not concern the records and the log. */
  lemma LocalSlotShared(sh: Shared, local: seq<EpochField>, epoch: EpochField)
    requires SharedInv(sh) && |local| == |sh.local| && sh.epoch <= epoch
    ensures SharedInv(sh.(local := local, epoch := epoch))
  {
    var sh' := sh.(local := local, epoch := epoch);
    forall k | 0 <= k < |sh.table| ensures RecordInv(sh', k) {
      assert RecordInv(sh, k);
    }
    forall j | 0 <= j < |sh.log| ensures LogInv(sh', j) {
      assert LogInv(sh, j);
    }
  }

  lemma LocalSlotReads(sh: Shared, local: seq<EpochField>, epoch: EpochField, rset: seq<ReadElement>, srcs: seq<int>)
    requires ReadsInv(sh, rset, srcs) && sh.epoch <= epoch
    ensures ReadsInv(sh.(local := local, epoch := epoch), rset, srcs)
  {
    forall i | 0 <= i < |rset| ensures ReadInv(sh.(local := local, epoch := epoch), rset[i], srcs[i]) {
      assert ReadInv(sh, rset[i], srcs[i]);
    }
  }

  // ----- validation -----

  /** A record that still has the version that was read, and is not locked by another executor, has not been
      written by any surviving transaction between the source of the read and this transaction. */
  lemma ValidReadOk(sh: Shared, t: nat, l: Local, i: nat)
    requires SharedInv(sh) && LocalInv(sh, t, l) && l.pc == Validate(i) && i < |l.rset| && l.rset[i].key < |sh.table|
    requires var r, check := l.rset[i], sh.table[l.rset[i].key].word;
             && Ver(r.word) == Ver(check)
             && (check.lock ==> SearchWrite(l.wset, r.key) >= 0)
    ensures ReadOk(sh.log, l.entry, l.rset[i].key, l.srcs[i])
  {
    hide CopyInv, MaxInv, PhaseInv, SeenInv, EpochInv, NewerInv, HeldInv, SettledInv, BytesInv, UnlockInv,
      FullInv, TailInv, LocalShape, LogInv, OrdersInv, Ver, Puts;
    var k := l.rset[i].key;
    assert ReadInv(sh, l.rset[i], l.srcs[i]);
    assert RecordInv(sh, k);
    if sh.table[k].word.lock {
      var m := SearchWrite(l.wset, k);
      assert sh.meta[l.wset[m].key].owner == t;
    }
    forall j | 0 <= j < l.entry && l.srcs[i] < j && k in sh.log[j].puts ensures sh.log[j].outcome.Gone? {
      assert LiveInv(sh.meta, sh.log, j, k);
      assert sh.log[j].thread >= 0;
    }
  }

  ghost predicate Passes(sh: Shared, l: Local, i: nat) {
    && l.pc == Validate(i) && i < |l.rset| && l.rset[i].key < |sh.table|
    && var r, check := l.rset[i], sh.table[l.rset[i].key].word;
       && r.word.epoch == check.epoch && r.word.tid == check.tid
       && (check.lock ==> SearchWrite(l.wset, r.key) >= 0)
  }

  lemma ValidatePassKeeps(sh: Shared, t: nat, l: Local, i: nat)
    requires SharedInv(sh) && LocalInv(sh, t, l) && Passes(sh, l, i)
    ensures Keeps(sh, t, TickValidate(sh, l, i))
  {
    hide Less, Ver;
    ValidatePassLocal(sh, t, l, i);
    OwnKeeps(sh, t, TickValidate(sh, l, i).l);
  }

  lemma ValidatePassLocal(sh: Shared, t: nat, l: Local, i: nat)
    requires SharedInv(sh) && LocalInv(sh, t, l) && Passes(sh, l, i)
    ensures LocalInv(sh, t, TickValidate(sh, l, i).l)
  {
    hide ReadsInv, MaxInv, PhaseInv, SeenInv, EpochInv, ReadsOk, FullInv, TailInv, LogInv, OrdersInv, SharedShape,
      Ver, SortByKey, Puts;
    var check := sh.table[l.rset[i].key].word;
    assert RecordInv(sh, l.rset[i].key);
    ValidatePassReads(sh, t, l, i);
    ValidatePassMax(sh, t, l, i, check);
  }

  lemma ValidatePassReads(sh: Shared, t: nat, l: Local, i: nat)
    requires SharedInv(sh) && LocalInv(sh, t, l) && Passes(sh, l, i)
    ensures ReadsOk(sh.log, l.entry, l.rset, l.srcs, i + 1)
    ensures Ver(l.rset[i].word) == Ver(sh.table[l.rset[i].key].word)
  {
    hide LocksInv, PastInv, ReadsInv, CopyInv, MaxInv, PhaseInv, OverInv, SeenInv, EpochInv, NewerInv, HeldInv,
      SettledInv, BytesInv, EntryInv, UnlockInv, FullInv, TailInv, LocalShape, RecordInv, LogInv, Ver, Max, Puts;
    LessIsLexicographic(l.rset[i].word, sh.table[l.rset[i].key].word);
    ValidReadOk(sh, t, l, i);
  }

  lemma ValidatePassMax(sh: Shared, t: nat, l: Local, i: nat, check: Tidword)
    requires MaxInv(sh.epoch, l) && SeenInv(l.pc, l.seen, l.rset) && EpochInv(sh.log, sh.local, t, l)
    requires PhaseInv(l.pc, l.status, |l.over|, |l.seen|, |l.wset|, |l.rset|)
    requires l.pc == Validate(i) && i < |l.rset| && check.epoch <= sh.epoch
    requires l.rset[i].word.epoch == check.epoch && Ver(l.rset[i].word) == Ver(check)
    ensures var l' := l.(maxr := Max(l.maxr, check), seen := l.seen + [check], pc := Validate(i + 1));
            && MaxInv(sh.epoch, l') && SeenInv(l'.pc, l'.seen, l'.rset) && EpochInv(sh.log, sh.local, t, l')
            && PhaseInv(l'.pc, l'.status, |l'.over|, |l'.seen|, |l'.wset|, |l'.rset|)
  {
    hide Less, Ver;
    MaxOfAppend(l.seen, check);
    var m := Max(l.maxr, check);
    assert m == l.maxr || m == check;
    var l' := l.(maxr := m, seen := l.seen + [check], pc := Validate(i + 1));
    assert MaxInv(sh.epoch, l');
    assert SeenInv(l'.pc, l'.seen, l'.rset);
    assert EpochInv(sh.log, sh.local, t, l');
  }

  lemma RejectKeeps(sh: Shared, t: nat, l: Local)
    requires SharedInv(sh) && LocalInv(sh, t, l) && t < |sh.local| && l.pc.Validate?
    ensures Keeps(sh, t, Reject(sh, l))
  {
    hide LocksInv, PastInv, ReadsInv, CopyInv, MaxInv, PhaseInv, OverInv, SeenInv, EpochInv, NewerInv, ReadsOk,
      HeldInv, SettledInv, BytesInv, FullInv, TailInv, LocalShape, RecordInv, LogInv, Ver;
    var p := Reject(sh, l);
    var log' := p.sh.log;
    assert LogMoves(sh.log, log');
    LogMovesKeeps(sh, log');
    LogMovesRely(sh, log', t);
    forall j, k ensures LiveInv(sh.meta, log', j, k) {
      assert LiveInv(sh.meta, sh.log, j, k);
    }
    forall i, j ensures Ordered(log', i, j) {
      assert Ordered(sh.log, i, j);
    }
    assert SharedInv(p.sh);
    RejectLocal(sh, t, l);
  }

  lemma RejectLocal(sh: Shared, t: nat, l: Local)
    requires SharedInv(sh) && LocalInv(sh, t, l) && t < |sh.local| && l.pc.Validate?
    ensures LocalInv(Reject(sh, l).sh, t, Reject(sh, l).l)
  {
    hide LocksInv, ReadsInv, PastInv, BytesInv, RecordInv, LogInv, LiveInv, OrdersInv, Over, Ver, Max, Puts;
    var p := Reject(sh, l);
    LogMovesReads(sh, p.sh.log, l.rset, l.srcs);
    MineMoves(sh.log, p.sh.log, t, l.mrctid);
    RejectPast(sh.log, sh.meta, t, l);
    hide SharedInv;
    RejectBytes(sh.table, sh.meta, t, l.pc, p.l.pc, l.wset);
  }

  lemma RejectPast(log: seq<Entry>, meta: seq<Meta>, t: nat, l: Local)
    requires PastInv(log, meta, t, l.entry, l.mrctid) && EntryInv(log, t, l) && l.pc.Validate?
    ensures PastInv(log[l.entry := log[l.entry].(outcome := Gone)], meta, t, -1, l.mrctid)
  {
    hide Ver, Puts;
  }

  lemma RejectBytes(table: seq<Tuple>, meta: seq<Meta>, t: nat, pc: Pc, pc': Pc, wset: seq<WriteElement>)
    requires BytesInv(table, meta, t, pc, wset) && pc.Validate? && !pc'.Install?
    ensures BytesInv(table, meta, t, pc', wset)
  {
  }

  lemma LogMovesReads(sh: Shared, log': seq<Entry>, rset: seq<ReadElement>, srcs: seq<int>)
    requires ReadsInv(sh, rset, srcs) && LogMoves(sh.log, log')
    ensures ReadsInv(sh.(log := log'), rset, srcs)
  {
    forall i | 0 <= i < |rset| ensures ReadInv(sh.(log := log'), rset[i], srcs[i]) {
      assert ReadInv(sh, rset[i], srcs[i]);
      SourceMoves(sh.init, sh.log, log', rset[i].key, rset[i].val, rset[i].word, srcs[i]);
    }
  }

  lemma ValidateEndKeeps(sh: Shared, t: nat, l: Local, i: nat)
    requires SharedInv(sh) && LocalInv(sh, t, l) && l.pc == Validate(i) && i >= |l.rset|
    ensures Keeps(sh, t, Pair(sh, l.(status := Committed, pc := Choose)))
  {
    hide Less, Ver, SharedInv, LocksInv, PastInv, ReadsInv, NewerInv, ReadsOk, HeldInv, SettledInv, FullInv;
    hide TailInv;
    OwnKeeps(sh, t, l.(status := Committed, pc := Choose));
  }

  lemma ValidateKeeps(sh: Shared, t: nat, l: Local, i: nat)
    requires SharedInv(sh) && LocalInv(sh, t, l) && t < |sh.local| && l.pc == Validate(i)
    requires TickEnabled(sh, t, l)
    ensures Keeps(sh, t, TickValidate(sh, l, i))
  {
    hide Less, SharedInv, LocalInv, Keeps;
    if i >= |l.rset| {
      ValidateEndKeeps(sh, t, l, i);
    } else {
      var r, check := l.rset[i], sh.table[l.rset[i].key].word;
      LessIsLexicographic(r.word, check);
      if r.word.epoch == check.epoch && r.word.tid == check.tid && (check.lock ==> SearchWrite(l.wset, r.key) >= 0) {
        ValidatePassKeeps(sh, t, l, i);
      } else {
        RejectKeeps(sh, t, l);
      }
    }
  }
}
