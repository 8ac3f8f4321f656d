/// Locks do not stay taken: from every state of every run, unless a task has been lost, the locks can all be freed
/// by flushing, logging, acknowledging and committing alone.

module PipelineDrain {
  import opened Pipeline
  import opened PipelineInvariant
  import opened PipelineLogging
  import opened PipelineNotifier
  import opened PipelineCommit
  import opened PipelineRuns
  import opened PipelineTheorems
  import Counting

  // ----- lost tasks -----

  predicate Loads(npc: NotifierPc, l: nat) { npc.Load? && npc.lsn == l }

  /** All followers have been counted for the entry, it has not been loaded, and no notifier is about to load it. */
  ghost predicate LostAt(t: Track, followers: nat, links: seq<Link>, l: nat) {
    && Early(t.phase) && |t.voters| >= followers
    && forall f :: 0 <= f < |links| ==> !Loads(links[f].npc, l)
  }

  ghost predicate Lost(s: State, l: nat) {
    && l < |s.sh.ledger| && s.sh.ledger[l].worker < |s.lanes|
    && LostAt(s.sh.ledger[l], s.sh.followers, s.lanes[s.sh.ledger[l].worker].links, l)
  }

  ghost predicate NoneLost(s: State) {
    forall l :: !Lost(s, l)
  }

  /** The task is stored before the last acknowledgement is counted. */
  predicate NotTooEarly(t: Track, followers: nat) {
    |t.voters| >= followers ==> !t.phase.Drawn? && !t.phase.Logged?
  }

  // ----- what a step in a lane does to the fate of its entries -----

  predicate SameVoters(t: Track, t': Track) {
    t'.worker == t.worker && t'.voters == t.voters && (Early(t'.phase) <==> Early(t.phase))
  }

  ghost predicate SameNotifiers(links: seq<Link>, links': seq<Link>) {
    && |links'| == |links|
    && forall f :: 0 <= f < |links| ==> links'[f].npc == links[f].npc
  }

  /** A step that loads nothing and counts nothing; what it draws is new. */
  ghost predicate Quietly(sh: Shared, lane: Lane, p: Pair) {
    && |sh.ledger| <= |p.sh.ledger| && SameNotifiers(lane.links, p.lane.links) && p.sh.followers == sh.followers
    && (forall l :: 0 <= l < |sh.ledger| ==> SameVoters(sh.ledger[l], p.sh.ledger[l]))
    && (forall l :: |sh.ledger| <= l < |p.sh.ledger| ==> p.sh.ledger[l].voters == {})
  }

  lemma WorkerQuiet(sh: Shared, w: nat, lane: Lane, timeout: bool)
    requires LaneInv(sh, w, lane) && WorkerEnabled(sh, lane)
    ensures Quietly(sh, lane, StepWorker(sh, w, lane, timeout))
  {
    hide LaneInv, Keys, Swap, Enter;
    match lane.pc
    case Append(e) => DrawnOf(sh, w, lane, e);
    case Send(e, f) => LoggedOf(sh, w, lane, e);
    case _ =>
  }

  lemma QuietFate(sh: Shared, lane: Lane, p: Pair, l: nat)
    requires Quietly(sh, lane, p) && l < |sh.ledger|
    ensures LostAt(sh.ledger[l], sh.followers, lane.links, l) <==> LostAt(p.sh.ledger[l], sh.followers, p.lane.links, l)
  {
    assert SameVoters(sh.ledger[l], p.sh.ledger[l]);
  }

  /** Counting a vote: the last of them sends the notifier on to load the task. */
  lemma CountFate(sh: Shared, lane: Lane, f: nat, l: nat)
    requires NotifierEnabled(sh, lane, f) && lane.links[f].npc.Waiting? && l < |sh.ledger|
    requires var m := lane.links[f].acks[0];
             f !in sh.ledger[m].voters && Count(sh.votes, m) == |sh.ledger[m].voters| < sh.followers
    ensures var p := StepCount(sh, lane, f);
            && |p.sh.ledger| == |sh.ledger| && p.sh.followers == sh.followers
            && p.sh.ledger[l].worker == sh.ledger[l].worker
            && (LostAt(sh.ledger[l], sh.followers, lane.links, l)
                ==> LostAt(p.sh.ledger[l], sh.followers, p.lane.links, l))
            && (!LostAt(sh.ledger[l], sh.followers, lane.links, l) && sh.followers >= 2 ==>
                  !LostAt(p.sh.ledger[l], sh.followers, p.lane.links, l))
  {
    var p, m := StepCount(sh, lane, f), lane.links[f].acks[0];
    if l == m {
      assert |sh.ledger[l].voters + {f}| == |sh.ledger[l].voters| + 1;
      assert p.lane.links[f].npc == if |p.sh.ledger[l].voters| > Half(sh.followers) then Load(l) else Waiting;
    } else {
      forall g | 0 <= g < |lane.links| ensures Loads(p.lane.links[g].npc, l) <==> Loads(lane.links[g].npc, l) {}
    }
  }

  /** Loading a task: it is not lost if it has been stored. */
  lemma LoadFate(sh: Shared, lane: Lane, f: nat, l: nat, m: nat)
    requires NotifierEnabled(sh, lane, f) && lane.links[f].npc == Load(m) && l < |sh.ledger|
    requires sh.ledger[m].phase.Stored? ==> FindTask(lane.tasks, m) < |lane.tasks|
    ensures var p := StepLoad(sh, lane, f, m);
            && |p.sh.ledger| == |sh.ledger| && p.sh.followers == sh.followers
            && p.sh.ledger[l].worker == sh.ledger[l].worker
            && (LostAt(sh.ledger[l], sh.followers, lane.links, l)
                ==> LostAt(p.sh.ledger[l], sh.followers, p.lane.links, l))
            && (!LostAt(sh.ledger[l], sh.followers, lane.links, l) && NotTooEarly(sh.ledger[l], sh.followers) ==>
                  !LostAt(p.sh.ledger[l], sh.followers, p.lane.links, l))
  {
    var p, i := StepLoad(sh, lane, f, m), FindTask(lane.tasks, m);
    hide FindTask;
    if l != m {
      forall g | 0 <= g < |lane.links| ensures Loads(p.lane.links[g].npc, l) <==> Loads(lane.links[g].npc, l) {}
    } else {
      assert Loads(lane.links[f].npc, l);
    }
  }

  lemma ApplyFate(sh: Shared, lane: Lane, f: nat, l: nat)
    requires NotifierEnabled(sh, lane, f) && lane.links[f].npc.Apply? && l < |sh.ledger|
    requires var m := lane.links[f].npc.e.lsn; m < |sh.ledger| && !Early(sh.ledger[m].phase)
    ensures var p := StepNotifier(sh, lane, f);
            && |p.sh.ledger| == |sh.ledger| && p.sh.followers == sh.followers
            && p.sh.ledger[l].worker == sh.ledger[l].worker
            && (LostAt(sh.ledger[l], sh.followers, lane.links, l)
                <==> LostAt(p.sh.ledger[l], sh.followers, p.lane.links, l))
  {
    var p := StepNotifier(sh, lane, f);
    assert SameVoters(sh.ledger[l], p.sh.ledger[l]);
    forall g | 0 <= g < |lane.links| ensures Loads(p.lane.links[g].npc, l) <==> Loads(lane.links[g].npc, l) {}
  }

  // ----- what a step does to the fate of all entries -----

  /** The step keeps what is lost, and loses nothing if it is safe. */
  ghost predicate OneFate(sh: Shared, lane: Lane, p: Pair, safe: bool, l: nat)
    requires l < |sh.ledger| && l < |p.sh.ledger|
  {
    && p.sh.ledger[l].worker == sh.ledger[l].worker
    && (LostAt(sh.ledger[l], sh.followers, lane.links, l) ==> LostAt(p.sh.ledger[l], sh.followers, p.lane.links, l))
    && (safe && !LostAt(sh.ledger[l], sh.followers, lane.links, l) ==>
          !LostAt(p.sh.ledger[l], sh.followers, p.lane.links, l))
  }

  ghost predicate Fate(sh: Shared, w: nat, lane: Lane, p: Pair, safe: bool) {
    && |sh.ledger| <= |p.sh.ledger| && p.sh.followers == sh.followers
    && (forall l :: 0 <= l < |sh.ledger| && sh.ledger[l].worker == w ==> OneFate(sh, lane, p, safe, l))
    && (forall l :: |sh.ledger| <= l < |p.sh.ledger| ==> p.sh.ledger[l].voters == {})
  }

  /** What a step must not do for nothing to be lost: look for a task that is not stored yet. */
  ghost predicate Safe(sh: Shared, lane: Lane, a: Action) {
    && sh.followers >= 2
    && (a.Notifier? && a.f < |lane.links| && lane.links[a.f].npc.Load? ==>
          forall l :: 0 <= l < |sh.ledger| ==> NotTooEarly(sh.ledger[l], sh.followers))
  }

  lemma ActFate(s: State, w: nat, a: Action)
    requires Inv(s) && w < |s.lanes| && Enabled(s.sh, s.lanes[w], a)
    ensures Fate(s.sh, w, s.lanes[w], Act(s.sh, w, s.lanes[w], a), Safe(s.sh, s.lanes[w], a))
  {
    hide Inv, LostAt, StepWorker, StepNotifier;
    var sh, lane, p := s.sh, s.lanes[w], Act(s.sh, w, s.lanes[w], a);
    match a
    case Notifier(f) => NotifierFate(s, w, f);
    case Worker(timeout) =>
      InvLane(s, w);
      WorkerQuiet(sh, w, lane, timeout);
      QuietlyFate(sh, w, lane, p, Safe(sh, lane, a));
    case _ => QuietlyFate(sh, w, lane, p, Safe(sh, lane, a));
  }

  lemma QuietlyFate(sh: Shared, w: nat, lane: Lane, p: Pair, safe: bool)
    requires Quietly(sh, lane, p)
    ensures Fate(sh, w, lane, p, safe)
  {
    hide LostAt;
    forall l | 0 <= l < |sh.ledger| ensures OneFate(sh, lane, p, safe, l) {
      QuietFate(sh, lane, p, l);
      assert SameVoters(sh.ledger[l], p.sh.ledger[l]);
    }
  }

  lemma NotifierFate(s: State, w: nat, f: nat)
    requires Inv(s) && w < |s.lanes| && NotifierEnabled(s.sh, s.lanes[w], f)
    ensures Fate(s.sh, w, s.lanes[w], StepNotifier(s.sh, s.lanes[w], f), Safe(s.sh, s.lanes[w], Notifier(f)))
  {
    hide Inv, LostAt, StepCount, StepLoad, StepApply, NotTooEarly;
    var sh, lane, npc := s.sh, s.lanes[w], s.lanes[w].links[f].npc;
    var p, safe := StepNotifier(sh, lane, f), Safe(sh, lane, Notifier(f));
    NotifierLength(sh, lane, f);
    match npc {
      case Waiting =>
        AckOf(s, w, f);
        forall l | 0 <= l < |sh.ledger| ensures OneFate(sh, lane, p, safe, l) {
          CountFate(sh, lane, f, l);
        }
      case Load(m) =>
        LoadOf(s, w, f);
        forall l | 0 <= l < |sh.ledger| ensures OneFate(sh, lane, p, safe, l) {
          LoadFate(sh, lane, f, l, m);
        }
      case Apply(e, _, _) =>
        AppliedOf(s, w, f);
        forall l | 0 <= l < |sh.ledger| ensures OneFate(sh, lane, p, safe, l) {
          ApplyFate(sh, lane, f, l);
        }
    }
  }

  lemma NotifierLength(sh: Shared, lane: Lane, f: nat)
    requires NotifierEnabled(sh, lane, f)
    ensures var p := StepNotifier(sh, lane, f); |p.sh.ledger| == |sh.ledger| && p.sh.followers == sh.followers
  {
    hide Half, FindTask;
  }

  lemma AppliedOf(s: State, w: nat, f: nat)
    requires Inv(s) && w < |s.lanes| && f < |s.lanes[w].links| && s.lanes[w].links[f].npc.Apply?
    ensures var m := s.lanes[w].links[f].npc.e.lsn; m < |s.sh.ledger| && !Early(s.sh.ledger[m].phase)
  {
    InvLink(s, w, f);
    hide Inv, Keys, Progress;
  }

  lemma AckOf(s: State, w: nat, f: nat)
    requires Inv(s) && w < |s.lanes| && NotifierEnabled(s.sh, s.lanes[w], f) && s.lanes[w].links[f].npc.Waiting?
    ensures var m := s.lanes[w].links[f].acks[0];
            && m < |s.sh.ledger| && s.sh.ledger[m].worker == w && f !in s.sh.ledger[m].voters
            && Count(s.sh.votes, m) == |s.sh.ledger[m].voters| < s.sh.followers
            && !s.sh.ledger[m].phase.Drawn?
  {
    hide SharedInv, Keys, EntriesInv;
    var lane := s.lanes[w];
    assert LaneInv(s.sh, w, lane);
    NextAck(s.sh.ledger, s.sh.hist, s.sh.followers, w, lane.pc, lane.log, lane.tasks, lane.links, f);
    var m := lane.links[f].acks[0];
    VotesOf(s, m);
    if |s.sh.ledger[m].voters| >= s.sh.followers {
      VotersInRange(s, m);
      Counting.AllOf(s.sh.ledger[m].voters, s.sh.followers, f);
    }
  }

  lemma VotersInRange(s: State, l: nat)
    requires Inv(s) && l < |s.sh.ledger|
    ensures forall f :: f in s.sh.ledger[l].voters ==> f < s.sh.followers
  {
    forall f | f in s.sh.ledger[l].voters ensures f < s.sh.followers {
      VoterInRange(s, l, f);
    }
  }

  /** A notifier about to load is in the lane of the entry, and if the entry's task is stored, it finds it. */
  lemma LoadOf(s: State, w: nat, f: nat)
    requires Inv(s) && w < |s.lanes| && NotifierEnabled(s.sh, s.lanes[w], f) && s.lanes[w].links[f].npc.Load?
    ensures var m := s.lanes[w].links[f].npc.lsn;
            && m < |s.sh.ledger| && s.sh.ledger[m].worker == w
            && (s.sh.ledger[m].phase.Stored? ==> FindTask(s.lanes[w].tasks, m) < |s.lanes[w].tasks|)
  {
    hide SharedInv, Keys, LaneInv;
    InvLink(s, w, f);
    var m := s.lanes[w].links[f].npc.lsn;
    InvPlace(s, m);
    if s.sh.ledger[m].phase.Stored? {
      var j :| 0 <= j < |s.lanes[w].tasks| && s.lanes[w].tasks[j] == Entry(m, s.sh.ledger[m].xacts);
    }
  }

  /** A step keeps what is lost; and it loses nothing unless it looks for a task too early. */
  lemma NextFate(s: State, step: Step)
    requires Inv(s)
    ensures forall l :: Lost(s, l) ==> Lost(Next(s, step), l)
    ensures NoneLost(s) && step.w < |s.lanes| && Safe(s.sh, s.lanes[step.w], step.a) ==> NoneLost(Next(s, step))
  {
    hide Inv, LostAt, Act, Enabled, SharedInv, LaneInv, OwnersMove;
    var w, a := step.w, step.a;
    if w < |s.lanes| && Enabled(s.sh, s.lanes[w], a) {
      var p, s' := Act(s.sh, w, s.lanes[w], a), Next(s, step);
      ActFate(s, w, a);
      assert SharedInv(s.sh, |s.lanes|) && LaneInv(s.sh, w, s.lanes[w]) by { InvParts(s, w); }
      ActKeeps(s.sh, w, |s.lanes|, s.lanes[w], a);
      forall l | 0 <= l < |s.sh.ledger| && s.sh.ledger[l].worker != w ensures s'.sh.ledger[l] == s.sh.ledger[l] {
        assert Rely(s.sh, p.sh, s.sh.ledger[l].worker);
      }
      forall l | 0 <= l < |s.sh.ledger| && s.sh.ledger[l].worker == w
        ensures OneFate(s.sh, s.lanes[w], p, Safe(s.sh, s.lanes[w], a), l) {}
      forall l: nat | Lost(s', l) && Safe(s.sh, s.lanes[w], a) ensures Lost(s, l) {
        if l >= |s.sh.ledger| {
          NewIsNotLost(s', l);
        }
      }
    }
  }

  lemma NewIsNotLost(s: State, l: nat)
    requires Lost(s, l) && s.sh.ledger[l].voters == {}
    ensures s.sh.followers == 0
  {
  }

  lemma InvParts(s: State, w: nat)
    requires Inv(s) && w < |s.lanes|
    ensures SharedInv(s.sh, |s.lanes|) && LaneInv(s.sh, w, s.lanes[w])
  {
    hide SharedInv, LaneInv;
  }

  lemma InvLane(s: State, w: nat)
    requires Inv(s) && w < |s.lanes|
    ensures LaneInv(s.sh, w, s.lanes[w])
  {
    hide SharedInv, LaneInv;
  }

  lemma {:induction false} LostAlong(s: State, steps: seq<Step>, l: nat)
    requires Inv(s) && Lost(s, l)
    ensures Inv(Run(s, steps)) && Lost(Run(s, steps), l)
  {
    hide Inv, Lost, Next;
    if steps != [] {
      var last := steps[|steps| - 1];
      LostAlong(s, steps[..|steps| - 1], l);
      NextKeeps(Run(s, steps[..|steps| - 1]), last);
      NextFate(Run(s, steps[..|steps| - 1]), last);
    }
  }

  ghost predicate Unlocked(s: State) {
    forall k :: 0 <= k < |s.sh.locks| ==> !s.sh.locks[k]
  }

  /** The keys of a lost task stay locked. */
  lemma LostHoldsLocks(s: State, l: nat)
    requires Inv(s) && Lost(s, l)
    ensures !Unlocked(s)
  {
    InvTrack(s, l);
    var xs := s.sh.ledger[l].xacts;
    assert Sorted(xs[0], |s.sh.db|);
    KeyAt(xs, 0);
    hide Inv, Keys, Disjoint;
    InvKey(s, xs[0].req.from);
    assert s.sh.locks[xs[0].req.from];
  }

  // ----- runs without new requests -----

  predicate NoRequests(steps: seq<Step>) {
    forall i :: 0 <= i < |steps| ==> !steps[i].a.Enqueue?
  }

  ghost predicate Drains(s: State, s': State) {
    exists steps :: NoRequests(steps) && s' == Run(s, steps)
  }

  lemma {:induction false} RunAppend(s: State, a: seq<Step>, b: seq<Step>)
    ensures Run(s, a + b) == Run(Run(s, a), b)
  {
    hide Next;
    if b == [] {
      assert a + b == a;
    } else {
      assert (a + b)[..|a + b| - 1] == a + b[..|b| - 1];
      RunAppend(s, a, b[..|b| - 1]);
    }
  }

  lemma DrainsTrans(s: State, s': State, s'': State)
    requires Drains(s, s') && Drains(s', s'')
    ensures Drains(s, s'')
  {
    hide Run;
    var a :| NoRequests(a) && s' == Run(s, a);
    var b :| NoRequests(b) && s'' == Run(s', b);
    RunAppend(s, a, b);
    assert NoRequests(a + b);
  }

  lemma DrainsStep(s: State, step: Step)
    requires !step.a.Enqueue?
    ensures Drains(s, s) && Drains(s, Next(s, step))
  {
    hide Next;
    assert Run(s, []) == s && NoRequests([]);
    assert [step][..0] == [];
    assert Run(s, [step]) == Next(s, step) && NoRequests([step]);
  }

  /** What the drain keeps. */
  ghost predicate Sound(s: State) {
    Inv(s) && NoneLost(s) && s.sh.followers >= 2
  }

  // ----- first the workers -----

  predicate Idle(lane: Lane) { lane.pc.Fetch? && lane.buf == [] }

  /** How far a worker is from having flushed its buffer. */
  function Distance(lane: Lane): int {
    var n := |lane.links|;
    match lane.pc
    case Fetch => if lane.buf == [] then 0 else n + 9
    case LockFrom => n + 8
    case LockTo => n + 7
    case Rollback => n + 6
    case Flush => n + 5
    case Draw => n + 4
    case Append(_) => n + 3
    case Send(_, f) => n + 2 - f
  }

  /** The requests that wait in a lane are the same. */
  predicate SameWaiting(lane: Lane, lane': Lane) {
    lane'.queue == lane.queue && lane'.retry == lane.retry
  }

  /** Past the attempt to lock a transfer. */
  predicate Flushing(lane: Lane) {
    Idle(lane) || lane.pc.Flush? || lane.pc.Draw? || lane.pc.Append? || lane.pc.Send?
  }

  lemma WorkerNearer(sh: Shared, w: nat, lane: Lane)
    requires LaneInv(sh, w, lane) && WorkerEnabled(sh, lane) && !Idle(lane)
    ensures var lane' := StepWorker(sh, w, lane, true).lane;
            && 0 <= Distance(lane') < Distance(lane)
            && (Flushing(lane) ==> Flushing(lane') && SameWaiting(lane, lane'))
  {
    hide EntriesInv, OrderInv, OwnInv, Keys, GroupInv, Swap, Enter;
  }

  lemma WorkerMoves(s: State, w: nat)
    requires Inv(s) && w < |s.lanes| && !Idle(s.lanes[w])
    ensures var s' := Next(s, Step(w, Worker(true)));
            && |s'.lanes| == |s.lanes| && (forall v :: 0 <= v < |s.lanes| && v != w ==> s'.lanes[v] == s.lanes[v])
            && 0 <= Distance(s'.lanes[w]) < Distance(s.lanes[w])
            && (Flushing(s.lanes[w]) ==> Flushing(s'.lanes[w]) && SameWaiting(s.lanes[w], s'.lanes[w]))
  {
    hide Inv, Distance, StepWorker, Idle, Flushing, SameWaiting;
    NeverStuck(s, w);
    InvLane(s, w);
    WorkerNearer(s.sh, w, s.lanes[w]);
  }

  lemma {:induction false} SettleWorker(s: State, w: nat) returns (s': State)
    requires Sound(s) && w < |s.lanes|
    ensures Drains(s, s') && Sound(s')
    ensures |s'.lanes| == |s.lanes| && Idle(s'.lanes[w])
    ensures forall v :: 0 <= v < |s.lanes| && v != w ==> s'.lanes[v] == s.lanes[v]
    ensures Flushing(s.lanes[w]) ==> SameWaiting(s.lanes[w], s'.lanes[w])
    decreases Distance(s.lanes[w])
  {
    hide Inv, Next, Drains, NoneLost;
    var step := Step(w, Worker(true));
    DrainsStep(s, step);
    if Idle(s.lanes[w]) {
      s' := s;
    } else {
      WorkerMoves(s, w);
      NextKeeps(s, step);
      NextFrame(s, step);
      NextFate(s, step);
      s' := SettleWorker(Next(s, step), w);
      DrainsTrans(s, Next(s, step), s');
    }
  }

  ghost predicate IdleTo(s: State, n: nat) {
    forall w :: 0 <= w < n && w < |s.lanes| ==> Idle(s.lanes[w])
  }

  lemma {:induction false} SettleWorkers(s: State, n: nat) returns (s': State)
    requires Sound(s) && n <= |s.lanes|
    ensures Drains(s, s') && Sound(s') && |s'.lanes| == |s.lanes| && IdleTo(s', n)
  {
    hide Inv, Next, Drains, NoneLost, Idle;
    if n == 0 {
      DrainsStep(s, Step(0, Worker(true)));
      s' := s;
    } else {
      var m := SettleWorkers(s, n - 1);
      s' := SettleWorker(m, n - 1);
      DrainsTrans(s, m, s');
    }
  }

  // ----- then the links -----

  predicate QuietLink(link: Link) {
    link.chan == [] && link.rpc.Receiving? && link.acks == [] && link.npc.Waiting?
  }

  ghost predicate AllIdle(s: State) {
    forall w :: 0 <= w < |s.lanes| ==> Idle(s.lanes[w])
  }

  function StageRank(stage: Stage): nat {
    match stage
    case ReadFrom => 6
    case ReadTo(_) => 5
    case WriteFrom(_, _) => 4
    case WriteTo(_) => 3
    case UnlockFrom => 2
    case UnlockTo => 1
    case Announce => 0
  }

  /** How much of its task a notifier has left to do. */
  function Remaining(npc: NotifierPc): nat {
    if npc.Apply? && npc.i < |npc.e.xacts| then 7 * (|npc.e.xacts| - npc.i) + StageRank(npc.stage) else 0
  }

  /** How many steps what is under way on a link takes to be counted. */
  function Underway(link: Link): nat {
    4 * |link.chan| + (if link.rpc.Replying? then 3 else 0) + 2 * |link.acks| + (if link.npc.Load? then 1 else 0)
  }

  /** The next step of a link: the notifier's, if it has anything to do, and otherwise the receiver's. */
  function LinkAction(link: Link, f: nat): Action {
    if !link.npc.Waiting? || link.acks != [] then Notifier(f) else Receiver(f)
  }

  lemma LinkNearer(sh: Shared, w: nat, lane: Lane, f: nat)
    requires f < |lane.links| && Enabled(sh, lane, LinkAction(lane.links[f], f)) && !QuietLink(lane.links[f])
    ensures var p := Act(sh, w, lane, LinkAction(lane.links[f], f));
            && |p.lane.links| == |lane.links| && p.lane.pc == lane.pc && p.lane.buf == lane.buf
            && SameWaiting(lane, p.lane)
            && (forall g :: 0 <= g < |lane.links| && g != f ==> p.lane.links[g] == lane.links[g])
            && (|p.lane.tasks| < |lane.tasks|
                || (|p.lane.tasks| == |lane.tasks|
                    && (Remaining(p.lane.links[f].npc) < Remaining(lane.links[f].npc)
                        || (Remaining(p.lane.links[f].npc) == Remaining(lane.links[f].npc)
                            && Underway(p.lane.links[f]) < Underway(lane.links[f])))))
  {
    hide Half, FindTask;
  }

  lemma LinkMoves(s: State, w: nat, f: nat)
    requires Inv(s) && w < |s.lanes| && f < |s.lanes[w].links| && !QuietLink(s.lanes[w].links[f])
    ensures var s' := Next(s, Step(w, LinkAction(s.lanes[w].links[f], f)));
            && |s'.lanes| == |s.lanes| && (forall v :: 0 <= v < |s.lanes| && v != w ==> s'.lanes[v] == s.lanes[v])
            && var lane, lane' := s.lanes[w], s'.lanes[w];
               && |lane'.links| == |lane.links| && (Idle(lane) ==> Idle(lane')) && SameWaiting(lane, lane')
               && (forall g :: 0 <= g < |lane.links| && g != f ==> lane'.links[g] == lane.links[g])
               && (|lane'.tasks| < |lane.tasks|
                   || (|lane'.tasks| == |lane.tasks|
                       && (Remaining(lane'.links[f].npc) < Remaining(lane.links[f].npc)
                           || (Remaining(lane'.links[f].npc) == Remaining(lane.links[f].npc)
                               && Underway(lane'.links[f]) < Underway(lane.links[f])))))
  {
    hide Inv, Remaining, Underway, StepNotifier, StepReceiver;
    NeverStuck(s, w);
    assert Enabled(s.sh, s.lanes[w], LinkAction(s.lanes[w].links[f], f));
    hide Enabled;
    LinkNearer(s.sh, w, s.lanes[w], f);
  }

  /** With all workers idle, every entry has been stored or loaded. */
  lemma IdleStored(s: State, l: nat)
    requires Inv(s) && AllIdle(s) && l < |s.sh.ledger|
    ensures !s.sh.ledger[l].phase.Drawn? && !s.sh.ledger[l].phase.Logged?
  {
    hide Inv;
    InvPlace(s, l);
    assert Idle(s.lanes[s.sh.ledger[l].worker]);
  }

  lemma LinkSafe(s: State, w: nat, f: nat)
    requires Sound(s) && AllIdle(s) && w < |s.lanes| && f < |s.lanes[w].links|
    ensures Safe(s.sh, s.lanes[w], LinkAction(s.lanes[w].links[f], f))
  {
    hide Inv, NoneLost, AllIdle;
    forall l | 0 <= l < |s.sh.ledger| ensures NotTooEarly(s.sh.ledger[l], s.sh.followers) {
      IdleStored(s, l);
    }
  }

  lemma {:induction false} SettleLink(s: State, w: nat, f: nat) returns (s': State)
    requires Sound(s) && AllIdle(s) && w < |s.lanes| && f < |s.lanes[w].links|
    ensures Drains(s, s') && Sound(s') && AllIdle(s')
    ensures |s'.lanes| == |s.lanes| && forall v :: 0 <= v < |s.lanes| && v != w ==> s'.lanes[v] == s.lanes[v]
    ensures SameWaiting(s.lanes[w], s'.lanes[w])
    ensures |s'.lanes[w].links| == |s.lanes[w].links| && QuietLink(s'.lanes[w].links[f])
    ensures forall g :: 0 <= g < |s.lanes[w].links| && g != f ==> s'.lanes[w].links[g] == s.lanes[w].links[g]
    decreases |s.lanes[w].tasks|, Remaining(s.lanes[w].links[f].npc), Underway(s.lanes[w].links[f])
  {
    hide Inv, Next, Drains, NoneLost, Safe, QuietLink, Remaining, Underway;
    var step := Step(w, LinkAction(s.lanes[w].links[f], f));
    DrainsStep(s, step);
    if QuietLink(s.lanes[w].links[f]) {
      s' := s;
    } else {
      LinkMoves(s, w, f);
      LinkSafe(s, w, f);
      NextKeeps(s, step);
      NextFrame(s, step);
      NextFate(s, step);
      s' := SettleLink(Next(s, step), w, f);
      DrainsTrans(s, Next(s, step), s');
    }
  }

  ghost predicate QuietTo(lane: Lane, n: nat) {
    forall f :: 0 <= f < n && f < |lane.links| ==> QuietLink(lane.links[f])
  }

  lemma {:induction false} SettleLane(s: State, w: nat, n: nat) returns (s': State)
    requires Sound(s) && AllIdle(s) && w < |s.lanes| && n <= |s.lanes[w].links|
    ensures Drains(s, s') && Sound(s') && AllIdle(s')
    ensures |s'.lanes| == |s.lanes| && forall v :: 0 <= v < |s.lanes| && v != w ==> s'.lanes[v] == s.lanes[v]
    ensures SameWaiting(s.lanes[w], s'.lanes[w])
    ensures |s'.lanes[w].links| == |s.lanes[w].links| && QuietTo(s'.lanes[w], n)
    decreases n
  {
    hide Inv, Next, Drains, NoneLost, QuietLink, AllIdle;
    if n == 0 {
      DrainsStep(s, Step(0, Worker(true)));
      s' := s;
    } else {
      var m := SettleLane(s, w, n - 1);
      s' := SettleLink(m, w, n - 1);
      DrainsTrans(s, m, s');
    }
  }

  ghost predicate QuietLanes(s: State, n: nat) {
    forall w :: 0 <= w < n && w < |s.lanes| ==> QuietTo(s.lanes[w], |s.lanes[w].links|)
  }

  lemma {:induction false} SettleLanes(s: State, n: nat) returns (s': State)
    requires Sound(s) && AllIdle(s) && n <= |s.lanes|
    ensures Drains(s, s') && Sound(s') && AllIdle(s') && |s'.lanes| == |s.lanes| && QuietLanes(s', n)
    ensures forall w :: 0 <= w < |s.lanes| ==> SameWaiting(s.lanes[w], s'.lanes[w])
    decreases n
  {
    hide Inv, Next, Drains, NoneLost, QuietTo, AllIdle;
    if n == 0 {
      DrainsStep(s, Step(0, Worker(true)));
      s' := s;
    } else {
      var m := SettleLanes(s, n - 1);
      s' := SettleLane(m, n - 1, |m.lanes[n - 1].links|);
      DrainsTrans(s, m, s');
    }
  }

  // ----- and then no lock is left -----

  /** With everything quiet, all followers of an entry have been counted. */
  lemma QuietCounted(s: State, l: nat, f: nat)
    requires Inv(s) && AllIdle(s) && QuietLanes(s, |s.lanes|) && l < |s.sh.ledger| && f < s.sh.followers
    ensures f in s.sh.ledger[l].voters
  {
    hide Inv, SharedInv, LaneInv, NotifierInv;
    var w := s.sh.ledger[l].worker;
    InvPlace(s, l);
    IdleStored(s, l);
    LinksOf(s, w);
    InvLink(s, w, f);
    var lane := s.lanes[w];
    assert Idle(lane) && QuietTo(lane, |lane.links|) && QuietLink(lane.links[f]);
    assert lane.log[..|lane.log|] == lane.log && lane.links[f].flog + [] == lane.links[f].flog;
    assert VoteInv(s.sh.ledger[l], f, lane.links[f].counted);
  }

  lemma QuietFinished(s: State, l: nat)
    requires Sound(s) && AllIdle(s) && QuietLanes(s, |s.lanes|) && l < |s.sh.ledger|
    ensures s.sh.ledger[l].phase.Finished?
  {
    hide Inv, SharedInv, LaneInv;
    var t := s.sh.ledger[l];
    InvPlace(s, l);
    IdleStored(s, l);
    var lane := s.lanes[t.worker];
    assert QuietTo(lane, |lane.links|);
    assert forall f :: 0 <= f < |lane.links| ==> QuietLink(lane.links[f]);
    assert !Lost(s, l);
    if Early(t.phase) {
      forall f: nat | f < s.sh.followers ensures f in t.voters {
        QuietCounted(s, l, f);
      }
      var all := Counting.RangeSize(s.sh.followers);
      Counting.SubsetSize(all, t.voters);
    }
  }

  lemma QuietUnlocked(s: State)
    requires Sound(s) && AllIdle(s) && QuietLanes(s, |s.lanes|) && |s.sh.locks| == |s.sh.db| == |s.sh.owner|
    ensures Unlocked(s)
  {
    hide Inv, NoneLost, QuietLanes, Keys;
    forall k | 0 <= k < |s.sh.locks| ensures !s.sh.locks[k] {
      InvKey(s, k);
      LockIff(s.sh.locks[k], s.sh.owner[k], s.sh.ledger, k);
      var o := s.sh.owner[k];
      OwnsIff(s, o, k);
      if o.Entered? {
        QuietFinished(s, o.lsn);
        FinishedReleased(s, o.lsn);
      } else if o.Acquiring? || o.Buffered? {
        assert Idle(s.lanes[o.w]);
        PipelineLogging.NoKeys(0);
      }
    }
  }

  lemma FinishedReleased(s: State, l: nat)
    requires Inv(s) && l < |s.sh.ledger| && s.sh.ledger[l].phase.Finished?
    ensures s.sh.ledger[l].released == Keys(s.sh.ledger[l].xacts)
  {
    InvTrack(s, l);
  }

  /** Freedom from deadlock. In a cluster of at least three servers, from any state of any run, all locks can be
      freed by flushing, logging, acknowledging and committing, with no new request, exactly when no task is lost. */
  lemma LocksDrainIff(s0: State, s: State)
    requires Reachable(s0, s) && s0.sh.followers >= 2
    ensures (exists s' :: Drains(s, s') && Unlocked(s')) <==> NoneLost(s)
  {
    hide Reachable, Inv, NoneLost, Unlocked, Drains, Lost;
    ReachableInv(s0, s);
    if NoneLost(s) {
      var t := SettleWorkers(s, |s.lanes|);
      assert AllIdle(t) by { IdleAll(t); }
      var u := SettleLanes(t, |t.lanes|);
      DrainsTrans(s, t, u);
      InvShape(u);
      QuietUnlocked(u);
    }
    forall s' | Drains(s, s') && Unlocked(s') ensures NoneLost(s) {
      UnlockedNoneLost(s, s');
    }
  }

  lemma IdleAll(s: State)
    requires IdleTo(s, |s.lanes|)
    ensures AllIdle(s)
  {
    hide Idle;
  }

  lemma InvShape(s: State)
    requires Inv(s)
    ensures |s.sh.locks| == |s.sh.db| == |s.sh.owner|
  {
    hide LaneInv, KeysInv, TracksInv, SerialInv;
  }

  lemma UnlockedNoneLost(s: State, s': State)
    requires Inv(s) && Drains(s, s') && Unlocked(s')
    ensures NoneLost(s)
  {
    hide Inv, Lost, Run;
    var steps :| NoRequests(steps) && s' == Run(s, steps);
    forall l: nat ensures !Lost(s, l) {
      if Lost(s, l) {
        LostAlong(s, steps, l);
        LostHoldsLocks(s', l);
      }
    }
  }

  // ----- no task is lost when it is stored in time -----

  /** The assumption: when a notifier counts the last acknowledgement of an entry, its task has been stored. */
  ghost predicate StoredInTime(s: State, step: Step) {
    step.w < |s.lanes| && step.a.Notifier? && NotifierEnabled(s.sh, s.lanes[step.w], step.a.f) ==>
      var link := s.lanes[step.w].links[step.a.f];
      link.npc.Waiting? ==>
        var t := s.sh.ledger[link.acks[0]];
        |t.voters| + 1 >= s.sh.followers ==> !t.phase.Drawn? && !t.phase.Logged?
  }

  ghost predicate AllStoredInTime(s0: State, steps: seq<Step>) {
    forall i :: 0 <= i < |steps| ==> StoredInTime(Run(s0, steps[..i]), steps[i])
  }

  ghost predicate NoneTooEarly(s: State) {
    forall l :: 0 <= l < |s.sh.ledger| ==> NotTooEarly(s.sh.ledger[l], s.sh.followers)
  }

  /** A step that stores in time keeps every task in time. */
  lemma InTimeStep(s: State, step: Step)
    requires Inv(s) && NoneTooEarly(s) && StoredInTime(s, step) && s.sh.followers > 0
    ensures NoneTooEarly(Next(s, step))
  {
    hide Inv, Act, Enabled, SharedInv, LaneInv, OwnersMove;
    var w, a := step.w, step.a;
    if w < |s.lanes| && Enabled(s.sh, s.lanes[w], a) {
      var p := Act(s.sh, w, s.lanes[w], a);
      InvParts(s, w);
      ActKeeps(s.sh, w, |s.lanes|, s.lanes[w], a);
      ActInTime(s, w, a);
      forall l | 0 <= l < |p.sh.ledger| ensures NotTooEarly(p.sh.ledger[l], p.sh.followers) {
        if l < |s.sh.ledger| && s.sh.ledger[l].worker != w {
          assert Rely(s.sh, p.sh, s.sh.ledger[l].worker);
          assert NotTooEarly(s.sh.ledger[l], s.sh.followers);
        }
      }
    }
  }

  lemma ActInTime(s: State, w: nat, a: Action)
    requires Inv(s) && NoneTooEarly(s) && StoredInTime(s, Step(w, a)) && s.sh.followers > 0
    requires w < |s.lanes| && Enabled(s.sh, s.lanes[w], a)
    ensures var p := Act(s.sh, w, s.lanes[w], a);
            && |s.sh.ledger| <= |p.sh.ledger| && p.sh.followers == s.sh.followers
            && (forall l :: 0 <= l < |p.sh.ledger| && (l < |s.sh.ledger| ==> s.sh.ledger[l].worker == w) ==>
                  NotTooEarly(p.sh.ledger[l], p.sh.followers))
  {
    hide Inv;
    match a
    case Worker(timeout) => WorkerInTime(s, w, timeout);
    case Notifier(f) => NotifierInTime(s, w, f);
    case _ =>
  }

  lemma WorkerInTime(s: State, w: nat, timeout: bool)
    requires Inv(s) && NoneTooEarly(s) && s.sh.followers > 0 && w < |s.lanes| && WorkerEnabled(s.sh, s.lanes[w])
    ensures var p := StepWorker(s.sh, w, s.lanes[w], timeout);
            && |s.sh.ledger| <= |p.sh.ledger| && p.sh.followers == s.sh.followers
            && (forall l :: 0 <= l < |p.sh.ledger| ==> NotTooEarly(p.sh.ledger[l], p.sh.followers))
  {
    hide Inv, Keys, Enter, Swap;
    var sh, lane := s.sh, s.lanes[w];
    var p := StepWorker(sh, w, lane, timeout);
    match lane.pc
    case Append(e) =>
      DrawnNoVotes(s, w, e);
      forall l | 0 <= l < |p.sh.ledger| ensures NotTooEarly(p.sh.ledger[l], p.sh.followers) {
        assert NotTooEarly(sh.ledger[l], sh.followers);
      }
    case _ =>
      forall l | 0 <= l < |p.sh.ledger| ensures NotTooEarly(p.sh.ledger[l], p.sh.followers) {
        if l < |sh.ledger| {
          assert NotTooEarly(sh.ledger[l], sh.followers);
        }
      }
  }

  lemma DrawnNoVotes(s: State, w: nat, e: Entry)
    requires Inv(s) && w < |s.lanes| && s.lanes[w].pc == Append(e)
    ensures e.lsn < |s.sh.ledger| && s.sh.ledger[e.lsn].voters == {}
  {
    InvLane(s, w);
    DrawnOf(s.sh, w, s.lanes[w], e);
    hide Inv, LaneInv;
    InvPlace(s, e.lsn);
  }

  lemma NotifierInTime(s: State, w: nat, f: nat)
    requires Inv(s) && NoneTooEarly(s) && StoredInTime(s, Step(w, Notifier(f)))
    requires w < |s.lanes| && NotifierEnabled(s.sh, s.lanes[w], f)
    ensures var p := StepNotifier(s.sh, s.lanes[w], f);
            && |s.sh.ledger| == |p.sh.ledger| && p.sh.followers == s.sh.followers
            && (forall l :: 0 <= l < |p.sh.ledger| ==> NotTooEarly(p.sh.ledger[l], p.sh.followers))
  {
    hide Inv, Keys, Half, FindTask;
    var sh, lane := s.sh, s.lanes[w];
    var p := StepNotifier(sh, lane, f);
    if lane.links[f].npc.Waiting? {
      AckOf(s, w, f);
      var m := lane.links[f].acks[0];
      assert |sh.ledger[m].voters + {f}| == |sh.ledger[m].voters| + 1;
    }
    forall l | 0 <= l < |p.sh.ledger| ensures NotTooEarly(p.sh.ledger[l], p.sh.followers) {
      assert NotTooEarly(sh.ledger[l], sh.followers);
    }
  }

  lemma {:induction false} InTimeAlong(s0: State, steps: seq<Step>)
    requires Start(s0) && s0.sh.followers >= 2 && AllStoredInTime(s0, steps)
    ensures NoneTooEarly(Run(s0, steps)) && NoneLost(Run(s0, steps))
  {
    hide Next, Inv, NoneTooEarly, NoneLost, StoredInTime, Safe;
    if steps == [] {
      assert NoneTooEarly(s0) && NoneLost(s0) by { StartInTime(s0); }
    } else {
      var n := |steps| - 1;
      var s := Run(s0, steps[..n]);
      forall i | 0 <= i < n ensures StoredInTime(Run(s0, steps[..n][..i]), steps[..n][i]) {
        assert steps[..n][..i] == steps[..i];
      }
      InTimeAlong(s0, steps[..n]);
      RunKeeps(s0, steps[..n]);
      assert StoredInTime(s, steps[n]);
      InTimeStep(s, steps[n]);
      NextFate(s, steps[n]);
      if steps[n].w < |s.lanes| {
        InTimeSafe(s, s.lanes[steps[n].w], steps[n].a);
      } else {
        OutOfRange(s, steps[n]);
      }
    }
  }

  lemma InTimeSafe(s: State, lane: Lane, a: Action)
    requires NoneTooEarly(s) && s.sh.followers >= 2
    ensures Safe(s.sh, lane, a)
  {
  }

  lemma OutOfRange(s: State, step: Step)
    requires step.w >= |s.lanes|
    ensures Next(s, step) == s
  {
  }

  lemma StartInTime(s: State)
    requires Start(s)
    ensures NoneTooEarly(s) && NoneLost(s)
  {
  }

  /** In a cluster of at least three servers, if every task is stored before the last acknowledgement of its entry
      is counted, all locks can be freed from every state of the run. */
  lemma NoDeadlock(s0: State, steps: seq<Step>)
    requires Start(s0) && s0.sh.followers >= 2 && AllStoredInTime(s0, steps)
    ensures exists s' :: Drains(Run(s0, steps), s') && Unlocked(s')
  {
    hide Start, AllStoredInTime, NoneLost, Drains, Unlocked, Run;
    InTimeAlong(s0, steps);
    LocksDrainIff(s0, Run(s0, steps));
  }

  /** With fewer than three servers nothing is ever applied. */
  lemma SmallClusterNeverApplies(s0: State, s: State, l: nat)
    requires Reachable(s0, s) && s0.sh.followers < 2 && l < |s.sh.ledger|
    ensures Early(s.sh.ledger[l].phase)
  {
    hide Reachable, Inv;
    ReachableInv(s0, s);
    VotesOf(s, l);
    if !Early(s.sh.ledger[l].phase) {
      QuorumOf(s, l);
    }
  }
}
