/// Every run of the Silo protocol keeps the invariant.

module SiloRuns {
  import opened Tidwords
  import opened Silo
  import opened SiloInvariant
  import opened SiloSteps
  import opened SiloCommit
  import opened SiloInstall

  /** The increment of the global epoch concerns nobody's records. */
  lemma ScanKeeps(sh: Shared, t: nat, l: Local, now: EpochField, i: nat)
    requires SharedInv(sh) && LocalInv(sh, t, l) && l.pc == Scan(now, i) && TickEnabled(sh, t, l)
    ensures Keeps(sh, t, TickScan(sh, l, now, i))
  {
    hide LocksInv, ReadsInv, ReadsOk, LogInv, Less, Ver;
    var p := TickScan(sh, l, now, i);
    if i < |sh.local| {
      OwnKeeps(sh, t, p.l);
    } else {
      LocalSlotShared(sh, sh.local, sh.epoch + 1);
      assert p.sh == sh.(local := sh.local, epoch := sh.epoch + 1);
      LocalSlotReads(sh, sh.local, sh.epoch + 1, l.rset, l.srcs);
      assert LocalInv(p.sh, t, p.l);
      forall u: nat | u != t ensures Rely(sh, p.sh, u) {
        assert TableMoves(sh, p.sh, u);
      }
    }
  }

  lemma TickKeeps(sh: Shared, t: nat, l: Local)
    requires SharedInv(sh) && LocalInv(sh, t, l) && TickEnabled(sh, t, l)
    ensures Keeps(sh, t, TickPair(sh, t, l))
  {
    hide SharedInv, LocalInv, Keeps, TickReadLoad, TickReadCopy, TickLockTry, TickInstall, TickValidate;
    match l.pc
    case ReadLoad(k) => TickReadLoadKeeps(sh, t, l, k);
    case ReadCopy(k, expected, buf) => ReadCopyKeeps(sh, t, l, k, expected, buf);
    case LockLoad(i) => LockLoadKeeps(sh, t, l, i);
    case LockTry(i, expected) => LockTryKeeps(sh, t, l, i, expected);
    case EpochLoad => EpochLoadKeeps(sh, t, l);
    case EpochStore(e) => EpochStoreKeeps(sh, t, l, e);
    case Validate(i) => ValidateKeeps(sh, t, l, i);
    case Choose => ChooseKeeps(sh, t, l);
    case Install(i, b) => InstallKeeps(sh, t, l, i, b);
    case UnlockLoad(i, end) => UnlockLoadKeeps(sh, t, l, i, end);
    case UnlockStore(i, end, w) => UnlockStoreKeeps(sh, t, l, i, end, w);
    case Scan(now, i) => ScanKeeps(sh, t, l, now, i);
  }

  lemma TickReadLoadKeeps(sh: Shared, t: nat, l: Local, k: nat)
    requires SharedInv(sh) && LocalInv(sh, t, l) && l.pc == ReadLoad(k) && k < |sh.table|
    ensures Keeps(sh, t, Pair(sh, TickReadLoad(sh, l, k)))
  {
    ReadLoadKeeps(sh, t, l, k);
  }

  lemma ActKeeps(sh: Shared, t: nat, l: Local, a: Action)
    requires SharedInv(sh) && LocalInv(sh, t, l) && Enabled(sh, t, l, a)
    ensures Keeps(sh, t, Act(sh, t, l, a))
  {
    hide SharedInv, LocalInv, Keeps, CallBegin, CallRead, CallWrite, CallValidation, CallAbort;
    match a
    case Begin => BeginKeeps(sh, t, l);
    case Read(k) => ReadKeeps(sh, t, l, k);
    case Write(k, v) => WriteKeeps(sh, t, l, k, v);
    case Validation => ValidationKeeps(sh, t, l);
    case Abort => AbortKeeps(sh, t, l);
    case Leader => LeaderKeeps(sh, t, l);
    case Tick => TickKeeps(sh, t, l);
  }

  // ----- epochs -----

  /** What a step does to the epoch counters and to the executor's place in the epoch protocol. */
  lemma LagKeeps(s: State, t: nat, a: Action)
    requires LagInv(s) && t < |s.thr| && Enabled(s.sh, t, s.thr[t], a)
    requires forall u :: 0 <= u < |s.thr| && s.thr[u].pc.Scan? ==> u == 0 && s.thr[u].pc.i >= 1
    ensures LagInv(Next(s, Step(t, a)))
  {
    hide CommitWord, SortByKey, OverAll;
    var l := s.thr[t];
    var p := Act(s.sh, t, l, a);
    var s' := Next(s, Step(t, a));
    if a.Tick? && l.pc.Scan? && l.pc.i >= |s.sh.local| {
      AdvanceLag(s, t);
    } else {
      ActSlots(s.sh, t, l, a);
      forall u | 0 <= u < |s'.thr|
        ensures SlotInv(s'.sh.epoch, s'.sh.local[u], u, s'.thr[u].pc)
      {
        assert SlotInv(s.sh.epoch, s.sh.local[u], u, s.thr[u].pc);
      }
      forall u, v | 0 <= u < |s'.thr| && 0 <= v < |s'.thr|
        ensures ScannedInv(s'.thr[u].pc, v, s'.sh.local[v], s'.thr[v].pc)
      {
        assert ScannedInv(s.thr[u].pc, v, s.sh.local[v], s.thr[v].pc);
        assert SlotInv(s.sh.epoch, s.sh.local[v], v, s.thr[v].pc);
      }
    }
  }

  predicate ScansOn(sh: Shared, pc: Pc, pc': Pc) {
    pc.Scan? && pc.i < |sh.local| && pc' == Scan(pc.now, pc.i + 1) && sh.local[pc.i] == pc.now
  }

  /** Where a step leaves the epoch counters and the executor's place in the epoch protocol. */
  predicate SlotsMove(sh: Shared, t: nat, l: Local, p: Pair) {
    && p.sh.epoch == sh.epoch
    && (p.l.pc.EpochStore? ==> p.sh.local == sh.local && (p.l.pc == l.pc || p.l.pc.e == sh.epoch))
    && (p.l.pc.Scan? ==>
          && p.sh.local == sh.local
          && (p.l.pc == l.pc || p.l.pc == Scan(sh.epoch, 1) || ScansOn(sh, l.pc, p.l.pc)))
    && (p.sh.local == sh.local || (l.pc.EpochStore? && t < |sh.local| && p.sh.local == sh.local[t := l.pc.e]))
  }

  /** The steps of reads, locks and installs have nothing to do with epochs. */
  lemma RecordSlots(sh: Shared, t: nat, l: Local)
    requires TickEnabled(sh, t, l) && !l.pc.EpochLoad? && !l.pc.EpochStore? && !l.pc.Scan?
    ensures var p := TickPair(sh, t, l);
            && p.sh.epoch == sh.epoch && p.sh.local == sh.local && !p.l.pc.EpochStore? && !p.l.pc.Scan?
  {
    hide Ver, Max, CommitWord, Puts, Over, OverAll, Bases, SearchWrite;
  }

  lemma EpochSlots(sh: Shared, t: nat, l: Local)
    requires TickEnabled(sh, t, l) && (l.pc.EpochLoad? || l.pc.EpochStore? || l.pc.Scan?)
    requires !(l.pc.Scan? && l.pc.i >= |sh.local|)
    ensures SlotsMove(sh, t, l, TickPair(sh, t, l))
  {
    hide Puts, OverAll, Bases;
  }

  /** Steps other than the increment leave the global epoch and the slots of others alone. */
  lemma ActSlots(sh: Shared, t: nat, l: Local, a: Action)
    requires Enabled(sh, t, l, a) && t < |sh.local|
    requires !(a.Tick? && l.pc.Scan? && l.pc.i >= |sh.local|)
    ensures SlotsMove(sh, t, l, Act(sh, t, l, a))
  {
    hide SortByKey, SearchRead, SearchWrite, TickPair;
    if a.Tick? {
      if l.pc.EpochLoad? || l.pc.EpochStore? || l.pc.Scan? {
        EpochSlots(sh, t, l);
      } else {
        RecordSlots(sh, t, l);
      }
    }
  }

  lemma AdvanceLag(s: State, t: nat)
    requires LagInv(s) && t < |s.thr| && s.thr[t].pc.Scan? && s.thr[t].pc.i >= |s.sh.local|
    requires TickEnabled(s.sh, t, s.thr[t])
    requires forall u :: 0 <= u < |s.thr| && s.thr[u].pc.Scan? ==> u == 0 && s.thr[u].pc.i >= 1
    ensures LagInv(Next(s, Step(t, Tick)))
  {
    var s' := Next(s, Step(t, Tick));
    forall u | 0 <= u < |s'.thr| ensures SlotInv(s'.sh.epoch, s'.sh.local[u], u, s'.thr[u].pc) {
      assert SlotInv(s.sh.epoch, s.sh.local[u], u, s.thr[u].pc);
      assert ScannedInv(s.thr[t].pc, u, s.sh.local[u], s.thr[u].pc);
    }
  }

  // ----- runs -----

  lemma ScannersOf(s: State)
    requires Inv(s)
    ensures forall u :: 0 <= u < |s.thr| && s.thr[u].pc.Scan? ==> u == 0 && s.thr[u].pc.i >= 1
  {
    hide SharedInv, LagInv;
    forall u | 0 <= u < |s.thr| && s.thr[u].pc.Scan? ensures u == 0 && s.thr[u].pc.i >= 1 {
      assert LocalInv(s.sh, u, s.thr[u]);
    }
  }

  lemma NextKeeps(s: State, step: Step)
    requires Inv(s)
    ensures Inv(Next(s, step))
  {
    hide SharedInv, LocalInv, Rely, Enabled, Act;
    var t, a := step.t, step.a;
    if t < |s.thr| && Enabled(s.sh, t, s.thr[t], a) {
      var p := Act(s.sh, t, s.thr[t], a);
      var s' := Next(s, step);
      ActKeeps(s.sh, t, s.thr[t], a);
      ScannersOf(s);
      LagKeeps(s, t, a);
      forall u | 0 <= u < |s'.thr| ensures LocalInv(s'.sh, u, s'.thr[u]) {
        if u != t {
          RelyKeeps(s.sh, s'.sh, u, s.thr[u]);
        }
      }
    }
  }

  lemma StartInv(s: State)
    requires Start(s)
    ensures Inv(s)
  {
    hide Less;
    assert Puts([]) == map[];
    forall k | 0 <= k < |s.sh.table| ensures RecordInv(s.sh, k) {}
    forall t | 0 <= t < |s.thr| ensures LocalInv(s.sh, t, s.thr[t]) {
      var l := s.thr[t];
      assert LocksInv(s.sh.meta, t, l.wset, 0, 0);
      assert MaxOf([]) == ZERO;
    }
  }

  lemma {:induction false} RunKeeps(s: State, steps: seq<Step>)
    requires Start(s)
    ensures Inv(Run(s, steps))
    ensures Run(s, steps).sh.init == s.sh.init && |Run(s, steps).thr| == |s.thr|
  {
    if steps == [] {
      StartInv(s);
    } else {
      RunKeeps(s, steps[..|steps| - 1]);
      NextKeeps(Run(s, steps[..|steps| - 1]), steps[|steps| - 1]);
      NextFrame(Run(s, steps[..|steps| - 1]), steps[|steps| - 1]);
    }
  }

  lemma NextFrame(s: State, step: Step)
    ensures Next(s, step).sh.init == s.sh.init && |Next(s, step).thr| == |s.thr|
  {
  }
}
