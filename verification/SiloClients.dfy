/// Clients that run transfers and nothing else.

module SiloClients {
  import opened Tidwords
  import opened Silo
  import opened SiloInvariant
  import opened SiloSteps
  import opened SiloRuns
  import opened SiloTheorems
  import opened Amounts
  import opened SiloTransfer

  // ----- what such a client does -----

  /** What `transferWork` writes for a request, over the balances in the read set. */
  function WriteOf(l: Local, r: Request, i: nat): WriteElement
    requires i < 2 && |l.rset| == 2 && |l.rset[0].val| == 4 && |l.rset[1].val| == 4
  {
    if i == 0 then WriteElement(r.from, Given(Plus(l.rset[0].val, -r.diff), l.dflt))
    else WriteElement(r.to, Given(Plus(l.rset[1].val, r.diff), l.dflt))
  }

  /** Both balances are in the read set. */
  predicate HasRead(l: Local, r: Request) {
    && |l.rset| == 2 && l.rset[0].key == r.from && l.rset[1].key == r.to
    && |l.rset[0].val| == 4 && |l.rset[1].val| == 4
  }

  /** The next call of `transferWork` for a normalised request: begin, two reads, two writes, validation. An abort,
      and the work of the epoch leader, may come where the protocol allows them. */
  predicate Calls(l: Local, a: Action, r: Request) {
    r.from < r.to &&
    match a
    case Begin => l.rset == [] && l.wset == []
    case Read(k) => l.wset == [] && ((l.rset == [] && k == r.from)
                                     || (|l.rset| == 1 && l.rset[0].key == r.from && k == r.to))
    case Write(k, v) =>
      && HasRead(l, r)
      && ((l.wset == [] && k == r.from && v == CStr(Plus(l.rset[0].val, -r.diff)))
          || (l.wset == [WriteOf(l, r, 0)] && k == r.to && v == CStr(Plus(l.rset[1].val, r.diff))))
    case Validation => |l.wset| == 2
    case _ => true
  }

  /** Every call of every client in the run belongs to a transfer. */
  ghost predicate OnlyTransferCalls(s0: State, steps: seq<Step>) {
    forall i :: 0 <= i < |steps| ==> CallsFrom(Run(s0, steps[..i]), steps[i])
  }

  ghost predicate CallsFrom(s: State, step: Step) {
    step.t < |s.thr| && Enabled(s.sh, step.t, s.thr[step.t], step.a) ==>
      exists r :: Calls(s.thr[step.t], step.a, r)
  }

  // ----- what follows for its state and for the log -----

  /** How far a transfer has come. */
  predicate OnTheWay(l: Local, r: Request) {
    && r.from < r.to && |l.dflt| == 4
    && (match l.pc
        case ReadLoad(k) => l.wset == [] && (if l.rset == [] then k == r.from else |l.rset| == 1 && k == r.to)
        case ReadCopy(k, _, _) => l.wset == [] && (if l.rset == [] then k == r.from else |l.rset| == 1 && k == r.to)
        case Ready => true
        case Scan(_, _) => true
        case _ => |l.wset| == 2)
    && (forall i :: 0 <= i < |l.rset| ==> |l.rset[i].val| == 4)
    && (|l.rset| >= 1 ==> l.rset[0].key == r.from)
    && (|l.rset| >= 2 ==> HasRead(l, r))
    && (l.wset != [] ==>
          HasRead(l, r) && (l.wset == [WriteOf(l, r, 0)] || l.wset == [WriteOf(l, r, 0), WriteOf(l, r, 1)]))
  }

  ghost predicate ClientInv(l: Local) {
    exists r :: OnTheWay(l, r)
  }

  ghost predicate EntryAttempts(e: Entry, dflt: Value) {
    exists r: Request :: r.from < r.to && Attempts(e, r, dflt)
  }

  ghost predicate ClientsInv(s: State) {
    && (forall t :: 0 <= t < |s.thr| ==> ClientInv(s.thr[t]))
    && (forall j :: 0 <= j < |s.sh.log| ==>
          s.sh.log[j].thread < |s.thr| && EntryAttempts(s.sh.log[j], s.thr[s.sh.log[j].thread].dflt))
  }

  /** Calls lead from one place of a transfer to another. */
  lemma CallOnTheWay(sh: Shared, t: nat, l: Local, a: Action, r: Request)
    requires ClientInv(l) && Enabled(sh, t, l, a) && !a.Tick? && Calls(l, a, r)
    ensures ClientInv(Act(sh, t, l, a).l) && Act(sh, t, l, a).sh == sh && Act(sh, t, l, a).l.dflt == l.dflt
  {
    hide OnTheWay, ClientInv, Calls, SortByKey, SearchRead, SearchWrite;
    match a
    case Begin => BeginOnTheWay(l, r);
    case Read(k) => ReadOnTheWay(sh, l, k, r);
    case Write(k, v) => WriteOnTheWay(l, k, v, r);
    case Validation => ValidationOnTheWay(l, r);
    case Abort => AbortOnTheWay(l, r);
    case Leader => LeaderOnTheWay(l, sh.epoch);
  }

  lemma BeginOnTheWay(l: Local, r: Request)
    requires ClientInv(l) && l.pc.Ready? && Calls(l, Begin, r)
    ensures ClientInv(CallBegin(l))
  {
    hide WriteOf;
    assert OnTheWay(CallBegin(l), r);
  }

  lemma AbortOnTheWay(l: Local, r: Request)
    requires ClientInv(l) && Calls(l, Abort, r)
    ensures ClientInv(CallAbort(l))
  {
    hide WriteOf;
    assert OnTheWay(CallAbort(l), r);
  }

  lemma ValidationOnTheWay(l: Local, r: Request)
    requires ClientInv(l) && l.pc.Ready? && Calls(l, Validation, r)
    ensures ClientInv(CallValidation(l))
  {
    hide Given, CStr, Plus, SortByKey;
    var q :| OnTheWay(l, q);
    SortOfTwo(l.wset);
    assert OnTheWay(CallValidation(l), q);
  }

  lemma LeaderOnTheWay(l: Local, e: EpochField)
    requires ClientInv(l) && l.pc.Ready?
    ensures ClientInv(l.(pc := Scan(e, 1)))
  {
    hide Given, CStr, Plus;
    var q :| OnTheWay(l, q);
    assert OnTheWay(l.(pc := Scan(e, 1)), q);
  }

  lemma ReadOnTheWay(sh: Shared, l: Local, k: nat, r: Request)
    requires ClientInv(l) && l.pc.Ready? && Calls(l, Read(k), r)
    ensures ClientInv(CallRead(l, k))
  {
    hide Given, CStr, Plus;
    assert OnTheWay(CallRead(l, k), r);
  }

  lemma WriteOnTheWay(l: Local, k: nat, v: Value, r: Request)
    requires ClientInv(l) && l.pc.Ready? && Calls(l, Write(k, v), r)
    ensures ClientInv(CallWrite(l, k, v))
  {
    hide CStr, Plus;
    var l' := CallWrite(l, k, v);
    assert l.wset == [] || l.wset[0].key == r.from;
    assert OnTheWay(l', r);
  }

  /** The steps of a read lead to the read set with one balance more, or to the same place. */
  lemma ReadTicks(sh: Shared, t: nat, l: Local, r: Request)
    requires SharedShape(sh) && PcShape(|sh.table|, sh.width, t, l.pc, l.rset, |l.wset|) && sh.width == 4
    requires OnTheWay(l, r) && TickEnabled(sh, t, l) && (l.pc.ReadLoad? || l.pc.ReadCopy?)
    ensures OnTheWay(TickPair(sh, t, l).l, r) && TickPair(sh, t, l).l.dflt == l.dflt
  {
    hide WriteOf, SearchRead;
  }

  /** The other steps of the protocol change neither set, until the end of a commit empties both. */
  lemma TickSets(sh: Shared, t: nat, l: Local)
    requires TickEnabled(sh, t, l) && !l.pc.ReadLoad? && !l.pc.ReadCopy?
    ensures var l' := TickPair(sh, t, l).l;
            && l'.dflt == l.dflt && !l'.pc.ReadLoad? && !l'.pc.ReadCopy?
            && if l'.rset == l.rset && l'.wset == l.wset then l'.pc.Scan? || l'.pc.Ready? || !l.pc.Scan?
               else l'.rset == [] && l'.wset == [] && l'.pc.Ready?
  {
    hide Puts, CommitWord, Max, SearchWrite, Over, OverAll, Bases;
  }

  lemma TickOnTheWay(sh: Shared, t: nat, l: Local, r: Request)
    requires SharedShape(sh) && PcShape(|sh.table|, sh.width, t, l.pc, l.rset, |l.wset|) && sh.width == 4
    requires OnTheWay(l, r) && TickEnabled(sh, t, l)
    ensures ClientInv(TickPair(sh, t, l).l) && TickPair(sh, t, l).l.dflt == l.dflt
  {
    hide Given, CStr, Plus, TickPair;
    if l.pc.ReadLoad? || l.pc.ReadCopy? {
      ReadTicks(sh, t, l, r);
    } else {
      TickSets(sh, t, l);
    }
    assert OnTheWay(TickPair(sh, t, l).l, r);
  }

  /** A transfer reaches its serialization point with its two reads and its two writes. */
  lemma EntryOnTheWay(sh: Shared, t: nat, l: Local, r: Request)
    requires OnTheWay(l, r) && l.pc.EpochLoad?
    ensures var e := TickEpochLoad(sh, t, l).sh.log[|sh.log|]; e.thread == t && EntryAttempts(e, l.dflt)
  {
    hide Given, CStr, Plus, Puts;
    assert Attempts(TickEpochLoad(sh, t, l).sh.log[|sh.log|], r, l.dflt);
  }

  /** No other step adds to the log, or changes more of it than the outcome of an entry. */
  lemma TickLog(sh: Shared, t: nat, l: Local)
    requires TickEnabled(sh, t, l) && !l.pc.EpochLoad?
    ensures var log' := TickPair(sh, t, l).sh.log;
            |log'| == |sh.log| && forall j :: 0 <= j < |sh.log| ==> SameAttempt(sh.log[j], log'[j])
  {
    hide Puts, CommitWord, Max, SearchWrite, Over, OverAll;
  }

  predicate SameAttempt(e: Entry, e': Entry) {
    e'.thread == e.thread && e'.gets == e.gets && e'.writes == e.writes
  }

  lemma SameAttempts(e: Entry, e': Entry, dflt: Value)
    requires SameAttempt(e, e') && EntryAttempts(e, dflt)
    ensures EntryAttempts(e', dflt)
  {
    var r: Request :| r.from < r.to && Attempts(e, r, dflt);
    assert Attempts(e', r, dflt);
  }

  lemma ActOnTheWay(sh: Shared, t: nat, l: Local, a: Action)
    requires SharedShape(sh) && LocalShape(|sh.table|, sh.width, t, l) && sh.width == 4
    requires ClientInv(l) && Enabled(sh, t, l, a) && exists r :: Calls(l, a, r)
    ensures var p := Act(sh, t, l, a);
            && ClientInv(p.l) && p.l.dflt == l.dflt
            && |sh.log| <= |p.sh.log|
            && (forall j :: 0 <= j < |sh.log| ==> SameAttempt(sh.log[j], p.sh.log[j]))
            && (forall j :: |sh.log| <= j < |p.sh.log| ==>
                  p.sh.log[j].thread == t && EntryAttempts(p.sh.log[j], l.dflt))
  {
    hide OnTheWay, EntryAttempts, TickPair;
    if a.Tick? {
      var q :| OnTheWay(l, q);
      TickOnTheWay(sh, t, l, q);
      if l.pc.EpochLoad? {
        EntryOnTheWay(sh, t, l, q);
        assert TickPair(sh, t, l) == TickEpochLoad(sh, t, l) by { EpochLoadIs(sh, t, l); }
      } else {
        TickLog(sh, t, l);
      }
    } else {
      var r :| Calls(l, a, r);
      CallOnTheWay(sh, t, l, a, r);
    }
  }

  lemma EpochLoadIs(sh: Shared, t: nat, l: Local)
    requires TickEnabled(sh, t, l) && l.pc.EpochLoad?
    ensures TickPair(sh, t, l) == TickEpochLoad(sh, t, l)
  {
  }

  lemma NextOnTheWay(s: State, step: Step)
    requires Inv(s) && ClientsInv(s) && s.sh.width == 4 && CallsFrom(s, step)
    ensures ClientsInv(Next(s, step)) && Next(s, step).sh.width == 4
    ensures forall t :: 0 <= t < |s.thr| ==> Next(s, step).thr[t].dflt == s.thr[t].dflt
  {
    hide SharedInv, LagInv, ClientInv, EntryAttempts, Act, Enabled, SharedShape, LocalShape, SameAttempt, Calls;
    var t, a := step.t, step.a;
    if t < |s.thr| && Enabled(s.sh, t, s.thr[t], a) {
      var s' := Next(s, step);
      ShapesOf(s, t);
      ActOnTheWay(s.sh, t, s.thr[t], a);
      WidthStays(s.sh, t, s.thr[t], a);
      forall j | 0 <= j < |s'.sh.log|
        ensures s'.sh.log[j].thread < |s'.thr| && EntryAttempts(s'.sh.log[j], s'.thr[s'.sh.log[j].thread].dflt)
      {
        if j < |s.sh.log| {
          assert SameAttempt(s.sh.log[j], s'.sh.log[j]);
          SameThread(s.sh.log[j], s'.sh.log[j]);
          SameAttempts(s.sh.log[j], s'.sh.log[j], s.thr[s.sh.log[j].thread].dflt);
        }
      }
    }
  }

  lemma SameThread(e: Entry, e': Entry)
    requires SameAttempt(e, e')
    ensures e'.thread == e.thread
  {
  }

  lemma ShapesOf(s: State, t: nat)
    requires Inv(s) && t < |s.thr|
    ensures SharedShape(s.sh) && LocalShape(|s.sh.table|, s.sh.width, t, s.thr[t])
  {
    hide RecordInv, LogInv, LiveInv, OrdersInv, LagInv, SharedShape, LocalShape;
    assert LocalInv(s.sh, t, s.thr[t]);
  }

  lemma WidthStays(sh: Shared, t: nat, l: Local, a: Action)
    requires Enabled(sh, t, l, a)
    ensures Act(sh, t, l, a).sh.width == sh.width
  {
    hide Puts, CommitWord, Max, SearchWrite, Over, OverAll, SortByKey;
  }

  lemma {:induction false} RunOnTheWay(s0: State, steps: seq<Step>)
    requires Start(s0) && s0.sh.width == 4 && OnlyTransferCalls(s0, steps)
    ensures ClientsInv(Run(s0, steps)) && Run(s0, steps).sh.width == 4
    ensures |Run(s0, steps).thr| == |s0.thr|
    ensures forall t :: 0 <= t < |s0.thr| ==> Run(s0, steps).thr[t].dflt == s0.thr[t].dflt
  {
    hide Next, Inv, CallsFrom;
    if steps == [] {
      StartOnTheWay(s0);
    } else {
      var n := |steps| - 1;
      forall i | 0 <= i < n ensures CallsFrom(Run(s0, steps[..n][..i]), steps[..n][i]) {
        assert steps[..n][..i] == steps[..i];
      }
      RunOnTheWay(s0, steps[..n]);
      RunKeeps(s0, steps[..n]);
      assert CallsFrom(Run(s0, steps[..n]), steps[n]);
      NextOnTheWay(Run(s0, steps[..n]), steps[n]);
      NextFrame(Run(s0, steps[..n]), steps[n]);
    }
  }

  lemma StartOnTheWay(s: State)
    requires Start(s) && s.sh.width == 4
    ensures ClientsInv(s)
  {
    forall t | 0 <= t < |s.thr| ensures ClientInv(s.thr[t]) {
      assert OnTheWay(s.thr[t], Request(0, 1, 0));
    }
  }

  // ----- money -----

  /** Both string views of a transfer say what they mean. */
  predicate FaithfulEntry(e: Entry, r: Request, dflt: Value) {
    && |e.gets| == 2 && |e.gets[0].val| == 4 && |e.gets[1].val| == 4
    && Faithful(e.gets[0].val, Plus(e.gets[0].val, -r.diff), dflt)
    && Faithful(e.gets[1].val, Plus(e.gets[1].val, r.diff), dflt)
  }

  /** When all clients run `transferWork`, every entry of the log of committed transactions is one: it read two
      balances and left on them what the string views of the new balances give. It is a transfer exactly when both
      views are faithful. */
  lemma CommitsAreTransfers(s0: State, steps: seq<Step>, j: nat)
    requires Start(s0) && s0.sh.width == 4 && OnlyTransferCalls(s0, steps)
    requires var s := Run(s0, steps); j < |s.sh.log| && s.sh.log[j].outcome.Done?
    ensures var s := Run(s0, steps);
            && s.sh.log[j].thread < |s0.thr|
            && var e, dflt := s.sh.log[j], s0.thr[s.sh.log[j].thread].dflt;
               exists r: Request :: r.from < r.to && Attempts(e, r, dflt) && Leaves(e, r, dflt)
                                    && (IsTransfer(e, r) <==> FaithfulEntry(e, r, dflt))
  {
    hide Inv, Attempts, Leaves, IsTransfer, Run, Start, OnlyTransferCalls, Faithful, ClientInv;
    var s := Run(s0, steps);
    RunKeeps(s0, steps);
    RunOnTheWay(s0, steps);
    var e := s.sh.log[j];
    var dflt := s0.thr[e.thread].dflt;
    assert EntryAttempts(e, dflt);
    var r: Request :| r.from < r.to && Attempts(e, r, dflt);
    assert SharedInv(s.sh) by { SharedOf(s); }
    LeavesOf(s.sh, j, r, dflt);
    DefaultWidth(s0, e.thread);
    TransferIff(e, r, dflt);
    FaithfulOf(e, r, dflt);
  }

  lemma DefaultWidth(s0: State, t: nat)
    requires Start(s0) && t < |s0.thr|
    ensures |s0.thr[t].dflt| == s0.sh.width
  {
  }

  lemma FaithfulOf(e: Entry, r: Request, dflt: Value)
    requires Attempts(e, r, dflt)
    ensures FaithfulEntry(e, r, dflt) <==>
              Faithful(e.gets[0].val, Plus(e.gets[0].val, -r.diff), dflt)
              && Faithful(e.gets[1].val, Plus(e.gets[1].val, r.diff), dflt)
  {
    hide Faithful, Plus, Given;
  }

  lemma SharedOf(s: State)
    requires Inv(s)
    ensures SharedInv(s.sh)
  {
    hide SharedInv, LocalInv, LagInv;
  }

  lemma AttemptIsMove(e: Entry, r: Request, dflt: Value)
    requires Attempts(e, r, dflt) && Leaves(e, r, dflt) && |dflt| == 4
    ensures IsMove(e)
  {
    hide Plus, Kept;
    KeptIff(e.gets[0].val, Plus(e.gets[0].val, -r.diff), dflt);
    KeptIff(e.gets[1].val, Plus(e.gets[1].val, r.diff), dflt);
  }

  lemma CommitIsMove(s0: State, steps: seq<Step>, j: nat)
    requires Start(s0) && s0.sh.width == 4 && OnlyTransferCalls(s0, steps)
    requires var s := Run(s0, steps); j < |s.sh.log| && s.sh.log[j].outcome.Done?
    ensures IsMove(Run(s0, steps).sh.log[j])
  {
    hide Attempts, Leaves, IsTransfer, FaithfulEntry, Start, Run, IsMove, OnlyTransferCalls;
    CommitsAreTransfers(s0, steps, j);
    var e, dflt := Run(s0, steps).sh.log[j], s0.thr[Run(s0, steps).sh.log[j].thread].dflt;
    var r: Request :| r.from < r.to && Attempts(e, r, dflt) && Leaves(e, r, dflt);
    DefaultWidth(s0, e.thread);
    AttemptIsMove(e, r, dflt);
  }

  /** When all clients run `transferWork`, the total of all balances, with what running commits are still about to
      install, is the initial total and what the committed entries have added, at every step of every run. */
  lemma MoneyAccounted(s0: State, steps: seq<Step>)
    requires Start(s0) && s0.sh.width == 4 && OnlyTransferCalls(s0, steps)
    ensures var s := Run(s0, steps);
            && |s.sh.meta| == |s.sh.table|
            && Total(Intentions(s)) == Total(Values(s0.sh.table)) + Gains(s.sh.log)
  {
    hide Inv, Start, Run, OnlyTransferCalls, IsMove, Intentions, Total, Gains;
    var s := Run(s0, steps);
    assert Reachable(s0, s);
    ReachableInv(s0, s);
    IntentionsAreSerial(s0, s);
    forall j | 0 <= j < |s.sh.log| && s.sh.log[j].outcome.Done? ensures IsMove(s.sh.log[j]) {
      CommitIsMove(s0, steps, j);
    }
    assert Balances(Values(s0.sh.table)) by { StartBalances(s0); }
    SerialGains(Values(s0.sh.table), s.sh.log);
  }

  lemma StartBalances(s0: State)
    requires Start(s0) && s0.sh.width == 4
    ensures Balances(Values(s0.sh.table))
  {
  }

  /** A transfer that is not: it takes the 97 of one account to an empty one, and they hold 145 after it. */
  lemma ZeroByteGains(e: Entry, r: Request)
    requires Attempts(e, r, [48, 0, 0, 0]) && Leaves(e, r, [48, 0, 0, 0])
    requires r.diff == 97 && e.gets[0].val == [97, 0, 0, 0] && e.gets[1].val == [0, 0, 0, 0]
    ensures Gain(e) == 48
  {
    ZeroByteMakesMoney();
    NinetySevenIsKept();
    AttemptIsMove(e, r, [48, 0, 0, 0]);
    hide IsMove, Kept, Plus;
  }

  lemma NinetySevenIsKept()
    ensures Plus([0, 0, 0, 0], 97) == [97, 0, 0, 0]
    ensures Kept([0, 0, 0, 0], [97, 0, 0, 0], [48, 0, 0, 0]) == [97, 0, 0, 0]
  {
    assert CStr([97, 0, 0, 0]) == [97];
  }

  /** Every committed transfer of the run is faithful. */
  ghost predicate FaithfulRun(s0: State, s: State) {
    forall j :: 0 <= j < |s.sh.log| && s.sh.log[j].outcome.Done? ==> FaithfulCommit(s0, s.sh.log[j])
  }

  ghost predicate FaithfulCommit(s0: State, e: Entry) {
    e.thread < |s0.thr| &&
      forall r: Request :: Attempts(e, r, s0.thr[e.thread].dflt) ==> FaithfulEntry(e, r, s0.thr[e.thread].dflt)
  }

  /** Money is conserved, modulo 2^32, at every step of every run of transfers in which the string views of the
      committed transfers are faithful. */
  lemma MoneyConserved(s0: State, steps: seq<Step>)
    requires Start(s0) && s0.sh.width == 4 && OnlyTransferCalls(s0, steps) && FaithfulRun(s0, Run(s0, steps))
    ensures var s := Run(s0, steps);
            |s.sh.meta| == |s.sh.table| && Same(Total(Intentions(s)), Total(Values(s0.sh.table)))
  {
    hide Start, Run, OnlyTransferCalls, Attempts, Leaves, IsTransfer, FaithfulEntry, Total, Intentions;
    var s := Run(s0, steps);
    MoneyAccounted(s0, steps);
    forall j | 0 <= j < |s.sh.log| && s.sh.log[j].outcome.Done? ensures exists r :: IsTransfer(s.sh.log[j], r) {
      CommitsAreTransfers(s0, steps, j);
      var e, dflt := s.sh.log[j], s0.thr[s.sh.log[j].thread].dflt;
      var r: Request :| r.from < r.to && Attempts(e, r, dflt) && Leaves(e, r, dflt)
                        && (IsTransfer(e, r) <==> FaithfulEntry(e, r, dflt));
      assert FaithfulCommit(s0, e);
    }
    StartBalances(s0);
    assert Reachable(s0, s);
    SiloTransfer.MoneyConserved(s0, s);
  }
}
