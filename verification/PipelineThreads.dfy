/// The code of the pipeline's threads, run while all the others run.
///
/// Between any two accesses to something shared, `Interfere` lets the other threads take any number of steps of the
/// machine. Each method is proved to take only steps of the machine itself, as the thread it belongs to, so whatever
/// holds of every run (see PipelineTheorems, PipelineReplay and PipelineDrain) holds of every execution of this code.

module PipelineThreads {
  import opened Amounts
  import opened Pipeline
  import opened PipelineInvariant
  import opened PipelineRuns
  import opened PipelineCommit
  import opened PipelineTheorems
  import opened PipelineLocks
  import opened PipelineParts
  import opened KeyValueStore

  /** Each client has a producer of its own; those of several clients may fill the queue of one worker. */
  datatype Thread =
    | ProducerOf(w: nat, client: nat)
    | WorkerOf(w: nat)
    | ReceiverOf(w: nat, f: nat)
    | NotifierOf(w: nat, f: nat)

  function ThreadOf(step: Step): Thread {
    match step.a
    case Enqueue(x) => ProducerOf(step.w, x.client)
    case Worker(_) => WorkerOf(step.w)
    case Receiver(f) => ReceiverOf(step.w, f)
    case Notifier(f) => NotifierOf(step.w, f)
  }

  ghost predicate Reached(start: State, trace: seq<Step>, st: State) {
    Start(start) && st == Run(start, trace)
  }

  /** `trace'` goes on from `trace` with steps of other threads, in any number and order. */
  ghost predicate OthersRan(trace: seq<Step>, trace': seq<Step>, me: Thread) {
    && |trace| <= |trace'| && trace'[..|trace|] == trace
    && forall i :: |trace| <= i < |trace'| ==> ThreadOf(trace'[i]) != me
  }

  /** The parts of a lane that only one thread touches; and what has been enqueued stays enqueued. */
  ghost predicate SameParts(lane: Lane, lane': Lane, me: Thread) {
    && |lane'.links| == |lane.links| && lane.enq <= lane'.enq
    && (me.WorkerOf? ==>
          lane'.pc == lane.pc && lane'.retry == lane.retry && lane'.buf == lane.buf && lane'.log == lane.log)
    && (me.ReceiverOf? && me.f < |lane.links| ==>
          lane'.links[me.f].flog == lane.links[me.f].flog && lane'.links[me.f].rpc == lane.links[me.f].rpc)
    && (me.NotifierOf? && me.f < |lane.links| ==>
          lane'.links[me.f].npc == lane.links[me.f].npc && lane'.links[me.f].counted == lane.links[me.f].counted)
  }

  ghost predicate SameSize(sh: Shared, sh': Shared) {
    sh'.followers == sh.followers && sh'.cap == sh.cap && |sh'.db| == |sh.db|
  }

  ghost predicate SameView(s: State, s': State, me: Thread) {
    && |s'.lanes| == |s.lanes| && SameSize(s.sh, s'.sh)
    && (me.w < |s.lanes| ==> SameParts(s.lanes[me.w], s'.lanes[me.w], me))
  }

  lemma ActView(sh: Shared, w: nat, lane: Lane, a: Action, me: Thread)
    requires Enabled(sh, lane, a)
    ensures SameSize(sh, Act(sh, w, lane, a).sh)
    ensures ThreadOf(Step(w, a)) != me && me.w == w ==> SameParts(lane, Act(sh, w, lane, a).lane, me)
  {
    hide Keys, Count, Half, Enter, Swap, FindTask;
    match a
    case Worker(timeout) => WorkerView(sh, w, lane, timeout, me);
    case Notifier(f) => NotifierView(sh, w, lane, f, me);
    case _ =>
  }

  lemma WorkerView(sh: Shared, w: nat, lane: Lane, timeout: bool, me: Thread)
    requires WorkerEnabled(sh, lane)
    ensures SameSize(sh, StepWorker(sh, w, lane, timeout).sh)
    ensures WorkerOf(w) != me && me.w == w ==> SameParts(lane, StepWorker(sh, w, lane, timeout).lane, me)
  {
    hide Keys, Count, Half, Enter, Swap, FindTask;
  }

  lemma NotifierView(sh: Shared, w: nat, lane: Lane, f: nat, me: Thread)
    requires NotifierEnabled(sh, lane, f)
    ensures SameSize(sh, StepNotifier(sh, lane, f).sh)
    ensures NotifierOf(w, f) != me && me.w == w ==> SameParts(lane, StepNotifier(sh, lane, f).lane, me)
  {
    hide Keys, Count, Half, Enter, Swap, FindTask;
  }

  lemma NextView(s: State, step: Step, me: Thread)
    requires ThreadOf(step) != me
    ensures SameView(s, Next(s, step), me)
  {
    hide Act, Enabled, ThreadOf;
    if step.w < |s.lanes| && Enabled(s.sh, s.lanes[step.w], step.a) {
      ActView(s.sh, step.w, s.lanes[step.w], step.a, me);
    }
  }

  lemma {:induction false} OthersKeep(start: State, trace: seq<Step>, trace': seq<Step>, me: Thread)
    requires OthersRan(trace, trace', me)
    ensures SameView(Run(start, trace), Run(start, trace'), me)
  {
    if |trace'| > |trace| {
      hide Next;
      var p := trace'[..|trace'| - 1];
      assert p[..|trace|] == trace;
      OthersKeep(start, trace, p, me);
      NextView(Run(start, p), trace'[|trace'| - 1], me);
    } else {
      assert trace' == trace;
    }
  }

  lemma {:induction false} RunShape(start: State, trace: seq<Step>)
    ensures |Run(start, trace).lanes| == |start.lanes|
  {
    hide Next;
    if trace != [] {
      RunShape(start, trace[..|trace| - 1]);
      NextFrame(Run(start, trace[..|trace| - 1]), trace[|trace| - 1]);
    }
  }

  /** The two directions of one connection to a follower. */
  datatype Wire = Wire(chan: seq<Entry>, acks: seq<nat>)

  function WiresOf(links: seq<Link>): (r: seq<Wire>)
    ensures |r| == |links|
  {
    seq(|links|, f requires 0 <= f < |links| => Wire(links[f].chan, links[f].acks))
  }

  lemma WiresUpdate(links: seq<Link>, f: nat, link: Link)
    requires f < |links|
    ensures WiresOf(links[f := link]) == WiresOf(links)[f := Wire(link.chan, link.acks)]
  {
  }

  /** The index maps the keys 0, 1, 2, ... to the entries of `db`. */
  ghost predicate Mirrors(index: map<int, int>, db: seq<int>) {
    forall k: int :: 0 <= k < |db| ==> k in index && index[k] == db[k]
  }

  lemma MirrorsUpdate(index: map<int, int>, db: seq<int>, k: nat, v: int)
    requires Mirrors(index, db) && k < |db|
    ensures Mirrors(index[k := v], db[k := v])
  {
  }

  predicate Stepped(s: State, w: nat, p: Pair, s': State)
    requires w < |s.lanes|
  {
    s'.sh == p.sh && s'.lanes == s.lanes[w := p.lane]
  }

  /** What the threads of the leader share, and the network. */
  class Cluster {
    const kvs: KVS
    const status: Status
    const infos: seq<WorkerInfo>
    const size: nat                    // of the cluster, with the leader
    var lsn: nat                       // `_lsn`
    var wires: seq<seq<Wire>>          // for each worker and follower
    ghost const start: State
    ghost var trace: seq<Step>
    ghost var st: State

    /** The shared memory is what the machine says it is. */
    ghost predicate Valid()
      reads this, kvs, kvs.hash, kvs.key, kvs.value, kvs.mutex, status, Infos()
    {
      && Reached(start, trace, st) && Inv(st) && size == st.sh.followers + 1
      && kvs.Valid() && kvs.mutex[..] == st.sh.locks && Mirrors(kvs.Contents(), st.sh.db)
      && status.votes == st.sh.votes && lsn == st.sh.lsn
      && |infos| == |wires| == |st.lanes|
      && (forall w, v :: 0 <= w < v < |infos| ==> infos[w] != infos[v])
      && (forall w :: 0 <= w < |infos| ==> infos[w].xactQ == st.lanes[w].queue)
      && (forall w :: 0 <= w < |infos| ==> infos[w].taskList == st.lanes[w].tasks)
      && (forall w :: 0 <= w < |wires| ==> wires[w] == WiresOf(st.lanes[w].links))
    }

    ghost function Infos(): set<WorkerInfo> {
      set w | 0 <= w < |infos| :: infos[w]
    }

    /** A cluster whose servers have just started. `s` is the machine's view of it. */
    constructor (table: KVS, workers: seq<WorkerInfo>, followers: nat, ghost s: State)
      requires Start(s) && s.sh.followers == followers && |workers| == |s.lanes|
      requires table.Valid() && table.mutex[..] == s.sh.locks && Mirrors(table.Contents(), s.sh.db)
      requires forall w :: 0 <= w < |workers| ==> workers[w].xactQ == [] && workers[w].taskList == []
      requires forall w, v :: 0 <= w < v < |workers| ==> workers[w] != workers[v]
      ensures Valid() && kvs == table && infos == workers && fresh(status) && st == start == s && trace == []
    {
      kvs, infos, size, lsn := table, workers, followers + 1, 0;
      status := new Status();
      wires := seq(|workers|, w => seq(followers, f => Wire([], [])));
      start, st, trace := s, s, [];
      new;
      StartInv(s);
      hide Inv;
      forall w | 0 <= w < |infos|
        ensures infos[w].xactQ == st.lanes[w].queue && infos[w].taskList == st.lanes[w].tasks
        ensures wires[w] == WiresOf(st.lanes[w].links)
      {
        assert s.lanes[w] == Lane([], [], Fetch, [], [], [], s.lanes[w].links, []);
        assert wires[w] == WiresOf(s.lanes[w].links);
      }
    }

    /** Records that a thread has taken its next step. */
    ghost method Advance(step: Step)
      requires Reached(start, trace, st) && Inv(st) && step.w < |st.lanes| && Enabled(st.sh, st.lanes[step.w], step.a)
      modifies this`st, this`trace
      ensures Reached(start, trace, st) && Inv(st)
      ensures trace == old(trace) + [step]
      ensures var p := Act(old(st).sh, step.w, old(st).lanes[step.w], step.a);
              Stepped(old(st), step.w, p, st)
    {
      hide Inv, Act, Enabled;
      NextKeeps(st, step);
      var trace' := trace + [step];
      assert trace'[..|trace|] == trace;
      trace := trace';
      st := Next(st, step);
    }

    ghost method AdvanceWorker(w: nat, timeout: bool)
      requires Reached(start, trace, st) && Inv(st) && w < |st.lanes|
      modifies this`st, this`trace
      ensures Reached(start, trace, st) && Inv(st)
      ensures trace == old(trace) + [Step(w, Worker(timeout))]
      ensures WorkerEnabled(old(st).sh, old(st).lanes[w])
      ensures Stepped(old(st), w, StepWorker(old(st).sh, w, old(st).lanes[w], timeout), st)
    {
      hide Inv, WorkerEnabled, StepWorker;
      NeverStuck(st, w);
      Advance(Step(w, Worker(timeout)));
    }

    ghost method AdvanceNotifier(w: nat, f: nat)
      requires Reached(start, trace, st) && Inv(st) && w < |st.lanes| && f < |st.lanes[w].links|
      requires st.lanes[w].links[f].npc.Waiting? ==> st.lanes[w].links[f].acks != []
      modifies this`st, this`trace
      ensures Reached(start, trace, st) && Inv(st)
      ensures trace == old(trace) + [Step(w, Notifier(f))]
      ensures NotifierEnabled(old(st).sh, old(st).lanes[w], f)
      ensures Stepped(old(st), w, StepNotifier(old(st).sh, old(st).lanes[w], f), st)
    {
      hide Inv, StepNotifier;
      NeverStuck(st, w);
      hide NotifierEnabled;
      Advance(Step(w, Notifier(f)));
    }

    /** Other threads may run here. */
    method Interfere(ghost me: Thread)
      requires Valid()
      modifies this, kvs.hash, kvs.mutex, status, Infos()
      ensures Valid() && OthersRan(old(trace), trace, me) && SameView(old(st), st, me)
    {
      OthersKeep(start, trace, trace, me);
    }

    /** The steps recorded so far, with whatever was added since `trace`. */
    ghost predicate Went(earlier: seq<Step>)
      reads this`trace
    {
      |earlier| <= |trace| && forall i :: 0 <= i < |earlier| ==> trace[i] == earlier[i]
    }
  }

  // ----- the worker thread -----

  lemma LaneShape(s: State, w: nat)
    requires Inv(s) && w < |s.lanes|
    ensures |s.sh.locks| == |s.sh.owner| == |s.sh.db| && s.sh.lsn == |s.sh.ledger| == |s.sh.hist|
    ensures ShapeInv(|s.sh.db|, s.sh.cap, s.lanes[w]) && |s.lanes[w].links| == s.sh.followers
  {
    hide KeysInv, TracksInv, SerialInv, ShapeInv, OwnInv, OrderInv, EntriesInv;
    assert LaneInv(s.sh, w, s.lanes[w]);
  }

  lemma AcquiredLocked(s: State, w: nat)
    requires Inv(s) && w < |s.lanes| && s.lanes[w].pc.Rollback?
    ensures |s.lanes[w].retry| == 1 && s.lanes[w].retry[0].req.from < |s.sh.locks|
            && s.sh.locks[s.lanes[w].retry[0].req.from]
  {
    LaneShape(s, w);
    hide SharedInv, EntriesInv, OrderInv, GroupInv, Keys;
    assert LaneInv(s.sh, w, s.lanes[w]);
    var k := s.lanes[w].retry[0].req.from;
    assert s.sh.owner[k] == Acquiring(w);
    InvKey(s, k);
    LockIff(s.sh.locks[k], s.sh.owner[k], s.sh.ledger, k);
  }

  lemma WireOf(links: seq<Link>, f: nat)
    requires f < |links|
    ensures WiresOf(links)[f] == Wire(links[f].chan, links[f].acks)
  {
  }

  /** What a worker tried in one iteration, and whether it got the locks. */
  datatype Round = Round(x: Option<Xact>, locked: bool) {
    function Taken(): (r: seq<Xact>)
      ensures if x.Some? && locked then |r| == 1 && SameTransfer(x.value, r[0]) && r[0].req.from <= r[0].req.to
              else r == []
    {
      if x.Some? && locked then [Swap(x.value)] else []
    }
  }

  /** The refused transfer was tried again, and what is refused now will be. */
  ghost predicate Tried(r: Round, retry: seq<Xact>, retry': seq<Xact>) {
    && (retry != [] ==> r.x.Some? && [r.x.value] == retry)
    && retry' == if r.x.Some? && !r.locked then [Swap(r.x.value)] else []
  }

  /** At step `m` of the run, thread `me` looks at state `s`. */
  ghost predicate Looks(start: State, trace: seq<Step>, m: nat, me: Thread, s: State) {
    m < |trace| && ThreadOf(trace[m]) == me && Run(start, trace[..m]) == s
  }

  /** Since step `from`, worker `w` has found one of the two keys of a transfer in other hands. */
  ghost predicate FoundOwned(start: State, trace: seq<Step>, from: nat, w: nat, r: Request) {
    exists m: nat, s: State :: from <= m && Looks(start, trace, m, WorkerOf(w), s)
                               && (OwnedElsewhere(s, w, r.from) || OwnedElsewhere(s, w, r.to))
  }

  /** Since step `from`, worker `w` has found neither a refused transfer nor one in its queue. */
  ghost predicate FoundNone(start: State, trace: seq<Step>, from: nat, w: nat) {
    exists m: nat, s: State :: from <= m && Looks(start, trace, m, WorkerOf(w), s)
                               && w < |s.lanes| && s.lanes[w].retry == [] && s.lanes[w].queue == []
  }

  lemma LooksNow(start: State, trace: seq<Step>, trace': seq<Step>, st: State, step: Step)
    requires Reached(start, trace, st) && trace' == trace + [step]
    ensures Looks(start, trace', |trace|, ThreadOf(step), st)
  {
    hide Start, Run;
    assert trace'[..|trace|] == trace;
  }

  lemma LooksStays(start: State, trace: seq<Step>, trace': seq<Step>, m: nat, me: Thread, s: State)
    requires Looks(start, trace, m, me, s) && |trace| <= |trace'|
    requires forall i :: 0 <= i < |trace| ==> trace'[i] == trace[i]
    ensures Looks(start, trace', m, me, s)
  {
    hide Run;
    assert trace'[..m] == trace[..m];
  }

  lemma OwnedStays(start: State, trace: seq<Step>, trace': seq<Step>, from: nat, from': nat, w: nat, r: Request)
    requires FoundOwned(start, trace, from, w, r) && from' <= from && |trace| <= |trace'|
    requires forall i :: 0 <= i < |trace| ==> trace'[i] == trace[i]
    ensures FoundOwned(start, trace', from', w, r)
  {
    hide Looks, OwnedElsewhere;
    var m: nat, s :| from <= m && Looks(start, trace, m, WorkerOf(w), s)
                     && (OwnedElsewhere(s, w, r.from) || OwnedElsewhere(s, w, r.to));
    LooksStays(start, trace, trace', m, WorkerOf(w), s);
  }

  lemma NoneStays(start: State, trace: seq<Step>, trace': seq<Step>, from: nat, from': nat, w: nat)
    requires FoundNone(start, trace, from, w) && from' <= from && |trace| <= |trace'|
    requires forall i :: 0 <= i < |trace| ==> trace'[i] == trace[i]
    ensures FoundNone(start, trace', from', w)
  {
    hide Looks;
    var m: nat, s :| from <= m && Looks(start, trace, m, WorkerOf(w), s)
                     && w < |s.lanes| && s.lanes[w].retry == [] && s.lanes[w].queue == [];
    LooksStays(start, trace, trace', m, WorkerOf(w), s);
  }

  /** A refused step found its key in other hands. */
  lemma RefusedStep(start: State, trace: seq<Step>, trace': seq<Step>, st: State, w: nat, r: Request)
    requires Reached(start, trace, st) && trace' == trace + [Step(w, Worker(false))] && w < |st.lanes|
    requires (st.lanes[w].pc.LockFrom? || st.lanes[w].pc.LockTo?) && st.lanes[w].retry != []
    requires r == st.lanes[w].retry[0].req
    requires var k := if st.lanes[w].pc.LockFrom? then r.from else r.to; k < |st.sh.locks| && st.sh.locks[k]
    ensures FoundOwned(start, trace', |trace|, w, r)
  {
    hide Start, Run, Next, Looks, OwnedElsewhere, Owned;
    assert Reachable(start, st);
    var k := if st.lanes[w].pc.LockFrom? then r.from else r.to;
    assert k < |start.sh.db| by { ReachableInv(start, st); LaneShape(st, w); }
    LockedIffOwned(start, st, k);
    if st.lanes[w].pc.LockFrom? {
      FirstLockIff(start, st, w, false);
    } else {
      SecondLockIff(start, st, w, false);
    }
    LooksNow(start, trace, trace', st, Step(w, Worker(false)));
  }

  /** `Raft::worker`, with the `TxnExecutor` that belongs to it. */
  class WorkerThread {
    const w: Cluster
    const id: nat
    const log: Log
    const logBuffer: array<Xact>
    var buffid: nat
    var canDoXactDeq: bool
    var xact: Option<Xact>

    constructor (cluster: Cluster, workerId: nat, capacity: nat)
      requires cluster.Valid() && workerId < |cluster.st.lanes| && capacity == cluster.st.sh.cap
      requires var lane := cluster.st.lanes[workerId];
               lane.pc.Fetch? && lane.retry == [] && lane.buf == [] && lane.log == []
      ensures Valid() && Loaded() && w == cluster && id == workerId && fresh(log) && fresh(logBuffer)
    {
      hide Inv, Run, Start;
      w, id, buffid, canDoXactDeq, xact := cluster, workerId, 0, true, None;
      log := new Log();
      logBuffer := new Xact[capacity](_ => Xact(0, 0, Request(0, 0, 0)));
    }

    ghost function Me(): Lane
      reads this, w
      requires id < |w.st.lanes|
    {
      w.st.lanes[id]
    }

    /** The thread's own fields are what the machine says, except for the buffer. */
    ghost predicate Valid()
      reads this, w, w.kvs, w.kvs.hash, w.kvs.key, w.kvs.value, w.kvs.mutex, w.status, w.Infos(), log
    {
      && w.Valid() && id < |w.st.lanes| && Entries(log.records) == Me().log && logBuffer.Length == w.st.sh.cap
    }

    /** The buffer holds these transfers. */
    ghost predicate Buffers(xs: seq<Xact>)
      reads this, logBuffer
    {
      buffid <= logBuffer.Length && logBuffer[..buffid] == xs
    }

    /** ... and so is the buffer, and the transfer to be tried again. */
    ghost predicate Loaded()
      reads this, w, logBuffer
      requires id < |w.st.lanes|
    {
      && Buffers(Me().buf)
      && (canDoXactDeq <==> Me().retry == [])
      && (!canDoXactDeq ==> xact.Some? && Me().retry == [xact.value])
    }

    method Yield()
      requires Valid()
      modifies w, w.kvs.hash, w.kvs.mutex, w.status, w.Infos()
      ensures Valid() && w.Went(old(w.trace))
      ensures SameParts(old(Me()), Me(), WorkerOf(id)) && |w.st.sh.db| == |old(w.st.sh.db)|
    {
      hide Inv, Run, Start, Next;
      w.Interfere(WorkerOf(id));
    }

    /** `xactDequeue`, unless a refused transfer is to be tried again. */
    method FetchXact()
      requires Valid() && Loaded() && Me().pc.Fetch?
      modifies this`xact, w`st, w`trace, w.Infos()
      ensures Valid() && w.Went(old(w.trace)) && Me().buf == old(Me().buf)
      ensures if xact.Some? then Me().pc.LockFrom? && Me().retry == [Swap(xact.value)]
              else Me().pc.Flush? && Me().retry == [] && canDoXactDeq && w.infos[id].xactQ == []
      ensures old(Me().retry) != [] ==> xact.Some? && [xact.value] == old(Me().retry)
      ensures xact.None? ==> FoundNone(w.start, w.trace, |old(w.trace)|, id)
    {
      hide Inv, Run, Start, Next, ShapeInv, Mirrors, WiresOf, Holds, KVS.Contents, KVS.Valid, Swap;
      LaneShape(w.st, id);
      if canDoXactDeq {
        xact := w.infos[id].XactDequeue();
      }
      ghost var s, trace := w.st, w.trace;
      w.AdvanceWorker(id, false);
      LooksNow(w.start, trace, w.trace, s, Step(id, Worker(false)));
    }

    /** `transferWork`: puts the keys in order and tries both locks; a refused second lock gives back the first. */
    method TransferWork() returns (ok: bool)
      requires Valid() && xact.Some? && Me().pc.LockFrom? && Me().retry == [Swap(xact.value)]
      modifies this`xact, w, w.kvs.hash, w.kvs.mutex, w.status, w.Infos()
      ensures Valid() && w.Went(old(w.trace)) && Me().pc.Flush? && Me().log == old(Me().log)
      ensures xact == Some(Swap(old(xact.value)))
      ensures SameTransfer(old(xact.value), xact.value) && xact.value.req.from < xact.value.req.to
      ensures ok ==> Me().retry == [] && Me().buf == old(Me().buf) + [xact.value]
      ensures !ok ==> Me().retry == [xact.value] && Me().buf == old(Me().buf)
      ensures !ok ==> FoundOwned(w.start, w.trace, |old(w.trace)|, id, xact.value.req)
    {
      hide Inv, Run, Start, Next, Cluster.Valid, FoundOwned;
      OrderedKeys();
      var req := xact.value.req;
      if req.from > req.to {
        req := Request(req.to, req.from, req.diff);
      }
      xact := Some(xact.value.(req := req));
      Yield();
      ghost var since := |w.trace|;
      ok := TryFrom();
      if !ok {
        OwnedStays(w.start, w.trace, w.trace, since, |old(w.trace)|, id, req);
      } else {
        Yield();
        since := |w.trace|;
        ok := TryTo();
        if !ok {
          ghost var trace := w.trace;
          Yield();
          Rollback();
          OwnedStays(w.start, trace, w.trace, since, |old(w.trace)|, id, req);
        }
      }
    }

    /** The transfer being tried has its keys in order. */
    lemma OrderedKeys()
      requires Valid() && Tries(Me().pc) && Me().retry != []
      ensures Me().retry[0].req.from < Me().retry[0].req.to
    {
      hide Inv, Run, Start;
      TriesOne(w.st, id);
    }

    method TryFrom() returns (ok: bool)
      requires Valid() && xact.Some? && Me().pc.LockFrom? && Me().retry == [xact.value]
      modifies w`st, w`trace, w.kvs.mutex
      ensures Valid() && w.Went(old(w.trace)) && Me() == old(Me()).(pc := if ok then LockTo else Flush)
      ensures !ok ==> FoundOwned(w.start, w.trace, |old(w.trace)|, id, xact.value.req)
    {
      hide Inv, Run, Start, Next, Mirrors, WiresOf, Holds, KVS.Contents, KVS.Valid, Swap, GroupInv, Keys;
      LaneShape(w.st, id);
      ok := w.kvs.Lock(xact.value.req.from);
      ghost var s, trace := w.st, w.trace;
      w.AdvanceWorker(id, false);
      if !ok {
        RefusedStep(w.start, trace, w.trace, s, id, xact.value.req);
      }
    }

    method TryTo() returns (ok: bool)
      requires Valid() && xact.Some? && Me().pc.LockTo? && Me().retry == [xact.value]
      modifies w`st, w`trace, w.kvs.mutex
      ensures Valid() && w.Went(old(w.trace)) && Me().log == old(Me().log)
      ensures ok ==> Me().pc.Flush? && Me().retry == [] && Me().buf == old(Me().buf) + [xact.value]
      ensures !ok ==> Me().pc.Rollback? && Me().retry == old(Me().retry) && Me().buf == old(Me().buf)
      ensures !ok ==> FoundOwned(w.start, w.trace, |old(w.trace)|, id, xact.value.req)
    {
      hide Inv, Run, Start, Next, Mirrors, WiresOf, Holds, KVS.Contents, KVS.Valid, Swap, GroupInv, Keys;
      LaneShape(w.st, id);
      ok := w.kvs.Lock(xact.value.req.to);
      ghost var s, trace := w.st, w.trace;
      w.AdvanceWorker(id, false);
      if !ok {
        RefusedStep(w.start, trace, w.trace, s, id, xact.value.req);
      }
    }

    method Rollback()
      requires Valid() && xact.Some? && Me().pc.Rollback? && Me().retry == [xact.value]
      modifies w`st, w`trace, w.kvs.mutex
      ensures Valid() && w.Went(old(w.trace)) && Me() == old(Me()).(pc := Flush)
    {
      hide Inv, Run, Start, Next, Mirrors, WiresOf, Holds, KVS.Contents, KVS.Valid, Swap, GroupInv, Keys;
      LaneShape(w.st, id);
      AcquiredLocked(w.st, id);
      w.kvs.Unlock(xact.value.req.from);
      w.AdvanceWorker(id, false);
    }

    /** One iteration of the worker's loop; `timeout` stands for the clock. A transfer that was refused before is
        tried first, otherwise the oldest of the queue; none is tried only if there is none. If it got its locks it
        joins the buffer, and if not, because somebody else owned one of its keys, it waits for the next iteration.
        The buffer is logged, as one group, when it is full or on a timeout. */
    method Iteration(timeout: bool) returns (ghost r: Round)
      requires Valid() && Loaded() && Me().pc.Fetch?
      modifies this, log, logBuffer, w, w.kvs.hash, w.kvs.mutex, w.status, w.Infos()
      ensures Valid() && Loaded() && Me().pc.Fetch? && w.Went(old(w.trace))
      ensures Tried(r, old(Me().retry), Me().retry)
      ensures r.x.None? ==> FoundNone(w.start, w.trace, |old(w.trace)|, id)
      ensures r.x.Some? && !r.locked ==> FoundOwned(w.start, w.trace, |old(w.trace)|, id, Swap(r.x.value).req)
      ensures var group := old(Me().buf) + r.Taken();
              if (timeout && group != []) || |group| == logBuffer.Length
              then Me().buf == []
                   && exists l: nat :: Entries(log.records) == old(Entries(log.records)) + [Entry(l, group)]
              else Me().buf == group && log.records == old(log.records)
    {
      hide Inv, Run, Start, Next, Cluster.Valid, Loaded, Swap, FoundOwned, FoundNone;
      r := TryXact();
      ghost var trace := w.trace;
      var flush := DecideFlush(timeout);
      if flush {
        LogGroup();
      }
      if r.x.None? {
        NoneStays(w.start, trace, w.trace, |old(w.trace)|, |old(w.trace)|, id);
      } else if !r.locked {
        OwnedStays(w.start, trace, w.trace, |old(w.trace)|, |old(w.trace)|, id, Swap(r.x.value).req);
      }
    }

    method TryXact() returns (ghost r: Round)
      requires Valid() && Loaded() && Me().pc.Fetch?
      modifies this, logBuffer, w, w.kvs.hash, w.kvs.mutex, w.status, w.Infos()
      ensures Valid() && Loaded() && Me().pc.Flush? && w.Went(old(w.trace))
      ensures Tried(r, old(Me().retry), Me().retry) && Me().buf == old(Me().buf) + r.Taken()
      ensures r.x.None? ==> FoundNone(w.start, w.trace, |old(w.trace)|, id)
      ensures r.x.Some? && !r.locked ==> FoundOwned(w.start, w.trace, |old(w.trace)|, id, Swap(r.x.value).req)
    {
      hide Inv, Run, Start, Next, Cluster.Valid, Swap, FoundOwned, FoundNone;
      Yield();
      ghost var since := |w.trace|;
      FetchXact();
      r := Round(xact, false);
      if xact.Some? {
        since := |w.trace|;
        LockXact();
        r := Round(r.x, canDoXactDeq);
        if !r.locked {
          OwnedStays(w.start, w.trace, w.trace, since, |old(w.trace)|, id, Swap(r.x.value).req);
        }
      } else {
        NoneStays(w.start, w.trace, w.trace, since, |old(w.trace)|, id);
      }
    }

    method LockXact()
      requires Valid() && Buffers(Me().buf) && xact.Some? && Me().pc.LockFrom? && Me().retry == [Swap(xact.value)]
      modifies this, logBuffer, w, w.kvs.hash, w.kvs.mutex, w.status, w.Infos()
      ensures Valid() && Loaded() && Me().pc.Flush? && w.Went(old(w.trace))
      ensures Me().buf == if canDoXactDeq then old(Me().buf) + [Swap(old(xact.value))] else old(Me().buf)
      ensures Me().retry == if canDoXactDeq then [] else [Swap(old(xact.value))]
      ensures Me().log == old(Me().log)
      ensures !canDoXactDeq ==> FoundOwned(w.start, w.trace, |old(w.trace)|, id, Swap(old(xact.value)).req)
    {
      hide Inv, Run, Start, Next, Cluster.Valid, Swap, FoundOwned;
      canDoXactDeq := TransferWork();
      if canDoXactDeq {
        BufferXact();
      }
    }

    /** The buffer has room for a transfer that has its locks. */
    method BufferXact()
      requires Valid() && xact.Some? && exists xs :: Buffers(xs) && Me().buf == xs + [xact.value]
      modifies this`buffid, logBuffer
      ensures Valid() && Buffers(Me().buf)
    {
      hide Inv, Run, Start, Next, GroupInv, Mirrors, KVS.Valid;
      LaneShape(w.st, id);
      logBuffer[buffid] := xact.value;
      buffid := buffid + 1;
    }

    method LogGroup()
      requires Valid() && Loaded() && Me().pc.Draw?
      modifies this`buffid, log, w, w.kvs.hash, w.kvs.mutex, w.status, w.Infos()
      ensures Valid() && Loaded() && Me().pc.Fetch? && w.Went(old(w.trace))
      ensures Me().buf == [] && Me().retry == old(Me().retry)
      ensures exists l: nat :: Entries(log.records) == old(Entries(log.records)) + [Entry(l, old(Me().buf))]
    {
      hide Inv, Run, Start, Next, Cluster.Valid;
      var e := LoggingWork();
      SendAll(e);
      Yield();
      StoreTask(e);
    }

    method DecideFlush(timeout: bool) returns (flush: bool)
      requires Valid() && Loaded() && Me().pc.Flush?
      modifies w`st, w`trace
      ensures Valid() && Loaded() && w.Went(old(w.trace)) && Me() == old(Me()).(pc := if flush then Draw else Fetch)
      ensures flush <==> (timeout && Me().buf != []) || |Me().buf| == logBuffer.Length
    {
      hide Inv, Run, Start, Next, ShapeInv, Mirrors, WiresOf, Holds, KVS.Contents, KVS.Valid, Swap;
      flush := (timeout && buffid > 0) || buffid == logBuffer.Length;
      w.AdvanceWorker(id, timeout);
    }

    /** `loggingWork`: draws the number and appends the group to the worker's log. */
    method LoggingWork() returns (e: Entry)
      requires Valid() && Loaded() && Me().pc.Draw?
      modifies this`buffid, log, w, w.kvs.hash, w.kvs.mutex, w.status, w.Infos()
      ensures Valid() && Loaded() && w.Went(old(w.trace)) && Me().pc == Send(e, 0)
      ensures e.xacts == old(Me().buf) && Entries(log.records) == old(Entries(log.records)) + [e]
      ensures Me().buf == [] && Me().retry == old(Me().retry)
    {
      hide Inv, Run, Start, Next, Cluster.Valid;
      Yield();
      e := GetLogSequenceNumber();
      Yield();
      AppendEntry(e);
    }

    method GetLogSequenceNumber() returns (e: Entry)
      requires Valid() && Loaded() && Me().pc.Draw?
      modifies this`buffid, w`st, w`trace, w`lsn
      ensures Valid() && Loaded() && w.Went(old(w.trace)) && Me() == old(Me()).(pc := Append(e), buf := [])
      ensures e == Entry(old(w.lsn), old(Me().buf))
    {
      hide Inv, Run, Start, Next, ShapeInv, Mirrors, WiresOf, Holds, KVS.Contents, KVS.Valid, Swap, Keys, Enter;
      LaneShape(w.st, id);
      e := Entry(w.lsn, logBuffer[..buffid]);
      w.lsn := w.lsn + 1;
      w.AdvanceWorker(id, false);
      buffid := 0;
    }

    method AppendEntry(e: Entry)
      requires Valid() && Loaded() && Me().pc == Append(e)
      modifies log, w`st, w`trace
      ensures Valid() && Loaded() && w.Went(old(w.trace)) && Me().pc == Send(e, 0)
      ensures Entries(log.records) == old(Entries(log.records)) + [e]
      ensures Me().buf == old(Me().buf) && Me().retry == old(Me().retry)
    {
      hide Inv, Run, Start, Next, ShapeInv, Mirrors, WiresOf, Holds, KVS.Contents, KVS.Valid, Swap;
      log.AddEntry(e, 0);
      w.AdvanceWorker(id, false);
    }

    /** The entry goes to every follower, one after the other: each has it then, or it is on its way. */
    method SendAll(e: Entry)
      requires Valid() && Loaded() && Me().pc == Send(e, 0)
      modifies w, w.kvs.hash, w.kvs.mutex, w.status, w.Infos()
      ensures Valid() && Loaded() && w.Went(old(w.trace)) && Me().pc == Send(e, |Me().links|)
      ensures Me().buf == old(Me().buf) && Me().retry == old(Me().retry)
      ensures forall f :: 0 <= f < |Me().links| ==> e in Me().links[f].flog + Me().links[f].chan
    {
      hide Inv, Run, Start, Next, Cluster.Valid;
      var n := Followers();
      for f := 0 to n
        invariant Valid() && Loaded() && w.Went(old(w.trace)) && Me().pc == Send(e, f) && |Me().links| == n
        invariant Me().buf == old(Me().buf) && Me().retry == old(Me().retry)
      {
        Yield();
        SendTo(e, f);
      }
      AllSent(e);
    }

    lemma AllSent(e: Entry)
      requires Valid() && Me().pc == Send(e, |Me().links|)
      ensures forall f :: 0 <= f < |Me().links| ==> e in Me().links[f].flog + Me().links[f].chan
    {
      hide Inv, Run, Start;
      assert Reachable(w.start, w.st);
      SendingLast(w.st, id);
      LinksOf(w.st, id);
      forall f | 0 <= f < |Me().links| ensures e in Me().links[f].flog + Me().links[f].chan {
        FollowersLagBehind(w.start, w.st, id, f);
      }
    }

    method Followers() returns (n: nat)
      requires Valid()
      ensures n == |Me().links|
    {
      hide Inv, Run, Start, Next;
      LaneShape(w.st, id);
      n := w.size - 1;
    }

    method SendTo(e: Entry, f: nat)
      requires Valid() && Loaded() && Me().pc == Send(e, f) && f < |Me().links|
      modifies w`st, w`trace, w`wires
      ensures Valid() && Loaded() && w.Went(old(w.trace)) && Me().pc == Send(e, f + 1)
      ensures |Me().links| == |old(Me().links)| && Me().buf == old(Me().buf) && Me().retry == old(Me().retry)
      ensures Me().links[f].chan == old(Me().links[f].chan) + [e]
    {
      hide Inv, Run, Start, Next, Mirrors, WiresOf, Holds, KVS.Contents, KVS.Valid, Swap;
      var wire := w.wires[id][f];
      WireOf(Me().links, f);
      w.wires := w.wires[id := w.wires[id][f := wire.(chan := wire.chan + [e])]];
      WiresUpdate(Me().links, f, Me().links[f].(chan := Me().links[f].chan + [e]));
      w.AdvanceWorker(id, false);
    }

    method StoreTask(e: Entry)
      requires Valid() && Loaded() && Me().pc == Send(e, |Me().links|)
      modifies w`st, w`trace, w.Infos()
      ensures Valid() && Loaded() && w.Went(old(w.trace)) && Me().pc.Fetch?
      ensures Me().buf == old(Me().buf) && Me().retry == old(Me().retry)
      ensures w.infos[id].taskList == old(w.infos[id].taskList) + [e]
    {
      hide Inv, Run, Start, Next, ShapeInv, Mirrors, WiresOf, Holds, KVS.Contents, KVS.Valid, Swap;
      w.infos[id].TaskStore(e);
      w.AdvanceWorker(id, false);
    }
  }

  // ----- the other threads -----

  /** The enqueue loop of `Raft::producer`, for one client of worker `id`. */
  class ProducerThread {
    const w: Cluster
    const id: nat
    const client: nat

    constructor (cluster: Cluster, workerId: nat, clientId: nat)
      requires cluster.Valid() && workerId < |cluster.st.lanes|
      ensures w == cluster && id == workerId && client == clientId
    {
      w, id, client := cluster, workerId, clientId;
    }

    /** The transfers of one client command go to the worker's queue in their order, whatever the producers of other
        clients enqueue in between: transfer i of the command is number `at[i]` of what the worker has ever been
        asked for. */
    method Produce(command: int, reqs: seq<Request>) returns (ghost at: seq<nat>)
      requires w.Valid() && id < |w.st.lanes|
      requires forall i :: 0 <= i < |reqs| ==> Proper(Xact(client, command, reqs[i]), |w.st.sh.db|)
      modifies w, w.kvs.hash, w.kvs.mutex, w.status, w.Infos()
      ensures w.Valid() && w.Went(old(w.trace)) && id < |w.st.lanes|
      ensures old(w.st.lanes[id].enq) <= w.st.lanes[id].enq && |at| == |reqs|
      ensures forall i :: 0 <= i < |at| ==>
                |old(w.st.lanes[id].enq)| <= at[i] < |w.st.lanes[id].enq|
                && w.st.lanes[id].enq[at[i]] == Xact(client, command, reqs[i])
      ensures forall i, j :: 0 <= i < j < |at| ==> at[i] < at[j]
    {
      hide Inv, Run, Start, Next, Cluster.Valid;
      at := [];
      for i := 0 to |reqs|
        invariant w.Valid() && w.Went(old(w.trace)) && id < |w.st.lanes| && |w.st.sh.db| == |old(w.st.sh.db)|
        invariant old(w.st.lanes[id].enq) <= w.st.lanes[id].enq && |at| == i
        invariant forall j :: 0 <= j < |at| ==>
                    |old(w.st.lanes[id].enq)| <= at[j] < |w.st.lanes[id].enq|
                    && w.st.lanes[id].enq[at[j]] == Xact(client, command, reqs[j])
        invariant forall j, k :: 0 <= j < k < |at| ==> at[j] < at[k]
      {
        w.Interfere(ProducerOf(id, client));
        at := at + [|w.st.lanes[id].enq|];
        EnqueueOne(Xact(client, command, reqs[i]));
      }
    }

    method EnqueueOne(tx: Xact)
      requires w.Valid() && id < |w.st.lanes| && Proper(tx, |w.st.sh.db|) && tx.client == client
      modifies w`st, w`trace, w.Infos()
      ensures w.Valid() && w.Went(old(w.trace)) && |w.st.lanes| == |old(w.st.lanes)|
      ensures |w.st.sh.db| == |old(w.st.sh.db)|
      ensures w.st.lanes[id].enq == old(w.st.lanes[id].enq) + [tx]
    {
      hide Inv, Run, Start, Next, Mirrors, WiresOf, Holds, KVS.Contents, KVS.Valid, Swap, Keys;
      w.infos[id].XactEnqueue(tx);
      w.Advance(Step(id, Enqueue(tx)));
    }
  }

  /** `Raft::logReceiver`, at follower `f`, for the log of worker `id`. */
  class ReceiverThread {
    const w: Cluster
    const id: nat
    const f: nat
    const log: Log

    constructor (cluster: Cluster, workerId: nat, follower: nat)
      requires cluster.Valid() && workerId < |cluster.st.lanes| && follower < |cluster.st.lanes[workerId].links|
      requires cluster.st.lanes[workerId].links[follower].flog == []
      ensures Valid() && w == cluster && id == workerId && f == follower && fresh(log)
    {
      hide Inv, Run, Start;
      w, id, f := cluster, workerId, follower;
      log := new Log();
    }

    ghost function Me(): Link
      reads this, w
      requires id < |w.st.lanes| && f < |w.st.lanes[id].links|
    {
      w.st.lanes[id].links[f]
    }

    ghost predicate Valid()
      reads this, w, w.kvs, w.kvs.hash, w.kvs.key, w.kvs.value, w.kvs.mutex, w.status, w.Infos(), log
    {
      && w.Valid() && id < |w.st.lanes| && f < |w.st.lanes[id].links|
      && Entries(log.records) == Me().flog
    }

    method Yield()
      requires Valid()
      modifies w, w.kvs.hash, w.kvs.mutex, w.status, w.Infos()
      ensures Valid() && w.Went(old(w.trace)) && Me().rpc == old(Me()).rpc
    {
      hide Inv, Run, Start, Next;
      w.Interfere(ReceiverOf(id, f));
    }

    /** One iteration: the entry that came first is in the log before it is acknowledged. */
    method Iteration() returns (got: Option<Entry>)
      requires Valid() && Me().rpc.Receiving?
      modifies log, w, w.kvs.hash, w.kvs.mutex, w.status, w.Infos()
      ensures Valid() && Me().rpc.Receiving? && w.Went(old(w.trace))
      ensures got.Some? ==> Entries(log.records) == old(Entries(log.records)) + [got.value]
      ensures got.None? ==> log.records == old(log.records) && Me().chan == []
    {
      hide Inv, Run, Start, Next, Cluster.Valid;
      Yield();
      got := ReceiveEntry();
      if got.Some? {
        Yield();
        Acknowledge(got.value.lsn);
      }
    }

    method ReceiveEntry() returns (got: Option<Entry>)
      requires Valid() && Me().rpc.Receiving?
      modifies log, w`st, w`trace, w`wires
      ensures Valid() && w.Went(old(w.trace))
      ensures got.Some? ==> Entries(log.records) == old(Entries(log.records)) + [got.value]
      ensures got.Some? ==> Me().rpc == Replying(got.value.lsn)
      ensures got.None? ==> log.records == old(log.records) && Me().rpc.Receiving? && Me().chan == []
      ensures got.Some? ==> old(Me().chan) == [got.value] + Me().chan
    {
      hide Inv, Run, Start, Next, Mirrors, WiresOf, Holds, KVS.Contents, KVS.Valid, Swap, Keys;
      WireOf(w.st.lanes[id].links, f);
      var wire := w.wires[id][f];
      if wire.chan == [] {
        return None;
      }
      var e := wire.chan[0];
      WiresUpdate(w.st.lanes[id].links, f, Receive(Me()));
      w.wires := w.wires[id := w.wires[id][f := wire.(chan := wire.chan[1..])]];
      log.AddEntry(e, 0);
      w.Advance(Step(id, Receiver(f)));
      got := Some(e);
    }

    method Acknowledge(lsn: nat)
      requires Valid() && Me().rpc == Replying(lsn)
      modifies w`st, w`trace, w`wires
      ensures Valid() && w.Went(old(w.trace)) && Me().rpc.Receiving? && Me().acks == old(Me().acks) + [lsn]
    {
      hide Inv, Run, Start, Next, Mirrors, WiresOf, Holds, KVS.Contents, KVS.Valid, Swap, Keys;
      WireOf(w.st.lanes[id].links, f);
      var wire := w.wires[id][f];
      WiresUpdate(w.st.lanes[id].links, f, Reply(Me()));
      w.wires := w.wires[id := w.wires[id][f := wire.(acks := wire.acks + [lsn])]];
      w.Advance(Step(id, Receiver(f)));
    }
  }

  /** The locks and the range of the transfer that a notifier is working on. */
  lemma WorkingOn(s: State, w: nat, f: nat)
    requires Inv(s) && w < |s.lanes| && f < |s.lanes[w].links| && s.lanes[w].links[f].npc.Apply?
    ensures var npc := s.lanes[w].links[f].npc;
            && npc.i < |npc.e.xacts| && InRange(s.sh, npc.e.lsn, npc.e.xacts[npc.i].req)
            && (npc.stage.UnlockFrom? ==> s.sh.locks[npc.e.xacts[npc.i].req.from])
            && (npc.stage.UnlockTo? ==> s.sh.locks[npc.e.xacts[npc.i].req.to])
  {
    InvParts(s, w);
    ApplyingOf(s.sh, w, |s.lanes|, s.lanes[w], f);
    var npc := s.lanes[w].links[f].npc;
    var r := npc.e.xacts[npc.i].req;
    InvKey(s, r.from);
    InvKey(s, r.to);
    LockIff(s.sh.locks[r.from], s.sh.owner[r.from], s.sh.ledger, r.from);
    LockIff(s.sh.locks[r.to], s.sh.owner[r.to], s.sh.ledger, r.to);
    hide Inv, SharedInv, LaneInv, Keys, Progress, Disjoint, KeyInv;
  }

  lemma InvParts(s: State, w: nat)
    requires Inv(s) && w < |s.lanes|
    ensures SharedInv(s.sh, |s.lanes|) && LaneInv(s.sh, w, s.lanes[w])
  {
    hide SharedInv, LaneInv;
  }

  /** Since step `from`, the notifier has found nothing to apply: an acknowledgement that does not reach the quorum, or
      no task with the number that has reached it. */
  ghost predicate NothingToApply(start: State, trace: seq<Step>, from: nat, w: nat, f: nat) {
    exists m: nat, s: State :: from <= m && Looks(start, trace, m, NotifierOf(w, f), s) && AppliesNone(s, w, f)
  }

  predicate AppliesNone(s: State, w: nat, f: nat) {
    && w < |s.lanes| && f < |s.lanes[w].links|
    && var link := s.lanes[w].links[f];
       || (link.npc.Waiting? && link.acks != [] && Count(s.sh.votes, link.acks[0]) + 1 <= (s.sh.followers + 1) / 2)
       || (link.npc.Load? && forall i :: 0 <= i < |s.lanes[w].tasks| ==> s.lanes[w].tasks[i].lsn != link.npc.lsn)
  }

  lemma NothingStays(start: State, trace: seq<Step>, trace': seq<Step>, from: nat, from': nat, w: nat, f: nat)
    requires NothingToApply(start, trace, from, w, f) && from' <= from && |trace| <= |trace'|
    requires forall i :: 0 <= i < |trace| ==> trace'[i] == trace[i]
    ensures NothingToApply(start, trace', from', w, f)
  {
    hide Looks, AppliesNone;
    var m: nat, s :| from <= m && Looks(start, trace, m, NotifierOf(w, f), s) && AppliesNone(s, w, f);
    LooksStays(start, trace, trace', m, NotifierOf(w, f), s);
  }

  /** `Raft::notifier`, for worker `id` and follower `f`. */
  class NotifierThread {
    const w: Cluster
    const id: nat
    const f: nat

    constructor (cluster: Cluster, workerId: nat, follower: nat)
      requires cluster.Valid() && workerId < |cluster.st.lanes| && follower < |cluster.st.lanes[workerId].links|
      ensures Valid() && w == cluster && id == workerId && f == follower
    {
      hide Inv, Run, Start;
      w, id, f := cluster, workerId, follower;
    }

    ghost function Npc(): NotifierPc
      reads this, w
      requires id < |w.st.lanes| && f < |w.st.lanes[id].links|
    {
      w.st.lanes[id].links[f].npc
    }

    ghost function Counted(): nat
      reads this, w
      requires id < |w.st.lanes| && f < |w.st.lanes[id].links|
    {
      w.st.lanes[id].links[f].counted
    }

    ghost predicate Valid()
      reads this, w, w.kvs, w.kvs.hash, w.kvs.key, w.kvs.value, w.kvs.mutex, w.status, w.Infos()
    {
      w.Valid() && id < |w.st.lanes| && f < |w.st.lanes[id].links|
    }

    method Yield()
      requires Valid()
      modifies w, w.kvs.hash, w.kvs.mutex, w.status, w.Infos()
      ensures Valid() && w.Went(old(w.trace)) && Npc() == old(Npc()) && Counted() == old(Counted())
    {
      hide Inv, Run, Start, Next;
      w.Interfere(NotifierOf(id, f));
    }

    /** One iteration of the notifier's loop. It counts one acknowledgement, unless there is none. An entry that it
        applied is finished: every transfer of it has been announced, in order, and all its locks are released. It
        applies none only if it counted none, the count did not get past the quorum, or there was no task. */
    method Iteration() returns (applied: Option<Entry>)
      requires Valid() && Npc().Waiting?
      modifies w, w.kvs.hash, w.kvs.mutex, w.status, w.Infos()
      ensures Valid() && Npc().Waiting? && w.Went(old(w.trace))
      ensures Counted() == old(Counted()) + 1 || (Counted() == old(Counted()) && w.st.lanes[id].links[f].acks == [])
      ensures applied.Some? ==> FinishedAs(w.st, applied.value)
      ensures applied.None? && Counted() > old(Counted()) ==> NothingToApply(w.start, w.trace, |old(w.trace)|, id, f)
    {
      hide Inv, Run, Start, Next, Cluster.Valid, FinishedAs, NothingToApply;
      Yield();
      applied := None;
      ghost var since := |w.trace|;
      var lsn, past := CountAck();
      if past {
        Yield();
        since := |w.trace|;
        applied := LoadTask(lsn);
        if applied.Some? {
          CommitTask(applied.value);
          return;
        }
      }
      if Counted() > old(Counted()) {
        NothingStays(w.start, w.trace, w.trace, since, |old(w.trace)|, id, f);
      }
    }

    /** `addVoteCount`, and the test against half the size of the cluster. */
    method CountAck() returns (lsn: nat, past: bool)
      requires Valid() && Npc().Waiting?
      modifies w`st, w`trace, w`wires, w.status
      ensures Valid() && w.Went(old(w.trace))
      ensures if past then Npc() == Load(lsn) else Npc().Waiting?
      ensures var acks := old(w.st.lanes[id].links[f].acks);
              if acks == [] then !past && Counted() == old(Counted()) && w.st.lanes[id].links[f].acks == []
              else lsn == acks[0] && Counted() == old(Counted()) + 1
                   && (past <==> Count(old(w.status.votes), lsn) + 1 > w.size / 2)
      ensures Counted() > old(Counted()) && !past ==> NothingToApply(w.start, w.trace, |old(w.trace)|, id, f)
    {
      hide Inv, Run, Start, Next, Mirrors, WiresOf, Holds, KVS.Contents, KVS.Valid, Swap, Keys, Count;
      WireOf(w.st.lanes[id].links, f);
      var wire := w.wires[id][f];
      if wire.acks == [] {
        return 0, false;
      }
      lsn := wire.acks[0];
      w.wires := w.wires[id := w.wires[id][f := wire.(acks := wire.acks[1..])]];
      var count := w.status.AddVoteCount(lsn);
      past := count > w.size / 2;
      ghost var link := w.st.lanes[id].links[f];
      ghost var npc := if past then Load(lsn) else Waiting;
      WiresUpdate(w.st.lanes[id].links, f, link.(acks := link.acks[1..], counted := link.counted + 1, npc := npc));
      ghost var s, trace := w.st, w.trace;
      w.AdvanceNotifier(id, f);
      LooksNow(w.start, trace, w.trace, s, Step(id, Notifier(f)));
    }

    method LoadTask(lsn: nat) returns (t: Option<Entry>)
      requires Valid() && Npc() == Load(lsn)
      modifies w`st, w`trace, w.Infos()
      ensures Valid() && w.Went(old(w.trace)) && Counted() == old(Counted())
      ensures if t.Some? then Npc() == Apply(t.value, 0, ReadFrom) && t.value.lsn == lsn else Npc().Waiting?
      ensures t.Some? <==> exists i :: 0 <= i < |old(w.infos[id].taskList)| && old(w.infos[id].taskList)[i].lsn == lsn
      ensures t.None? ==> NothingToApply(w.start, w.trace, |old(w.trace)|, id, f)
    {
      hide Inv, Run, Start, Next, Mirrors, WiresOf, Holds, KVS.Contents, KVS.Valid, Swap, Keys;
      t := w.infos[id].TaskLoad(lsn);
      NpcUpdate(w.st.lanes[id].links, f, if t.Some? then Apply(t.value, 0, ReadFrom) else Waiting);
      ghost var s, trace := w.st, w.trace;
      w.AdvanceNotifier(id, f);
      LooksNow(w.start, trace, w.trace, s, Step(id, Notifier(f)));
    }

    /** The transfers of a task, one after the other. */
    method CommitTask(t: Entry)
      requires Valid() && Npc() == Apply(t, 0, ReadFrom)
      modifies w, w.kvs.hash, w.kvs.mutex, w.status, w.Infos()
      ensures Valid() && w.Went(old(w.trace)) && Counted() == old(Counted()) && Npc().Waiting? && FinishedAs(w.st, t)
    {
      hide Inv, Run, Start, Next, Cluster.Valid, FinishedAs;
      var i := 0;
      var n := Size(t);
      while i < n
        invariant Valid() && w.Went(old(w.trace)) && Counted() == old(Counted()) && 0 <= i <= n == |t.xacts|
        invariant if i < n then Npc() == Apply(t, i, ReadFrom) else Npc().Waiting? && FinishedAs(w.st, t)
      {
        CommitWork(t, i);
        Announcement(t, i);
        i := i + 1;
      }
    }

    /** `nlog`, which is never zero. */
    method Size(t: Entry) returns (n: nat)
      requires Valid() && Npc() == Apply(t, 0, ReadFrom)
      ensures 0 < n == |t.xacts|
    {
      hide Inv, Run, Start, Next;
      WorkingOn(w.st, id, f);
      n := |t.xacts|;
    }

    /** `commitWork`: two reads, two writes and two unlocks, with other threads running in between. */
    method CommitWork(t: Entry, i: nat)
      requires Valid() && Npc() == Apply(t, i, ReadFrom) && i < |t.xacts|
      modifies w, w.kvs.hash, w.kvs.mutex, w.status, w.Infos()
      ensures Valid() && w.Went(old(w.trace)) && Counted() == old(Counted()) && Npc() == Apply(t, i, Announce)
    {
      hide Inv, Run, Start, Next, Cluster.Valid;
      var fromKey, toKey := t.xacts[i].req.from, t.xacts[i].req.to;
      var fromVal, toVal := NewBalances(t, i, fromKey, toKey);
      Yield();
      WriteKey(t, i, fromKey, fromVal);
      Yield();
      WriteKey(t, i, toKey, toVal);
      Release(t, i, fromKey, toKey);
    }

    method NewBalances(t: Entry, i: nat, fromKey: nat, toKey: nat) returns (fromVal: int, toVal: int)
      requires Valid() && Npc() == Apply(t, i, ReadFrom) && i < |t.xacts|
      requires fromKey == t.xacts[i].req.from && toKey == t.xacts[i].req.to
      modifies w, w.kvs.hash, w.kvs.mutex, w.status, w.Infos()
      ensures Valid() && w.Went(old(w.trace)) && Counted() == old(Counted())
              && Npc() == Apply(t, i, WriteFrom(fromVal, toVal))
    {
      hide Inv, Run, Start, Next, Cluster.Valid;
      Yield();
      fromVal := ReadKey(t, i, fromKey);
      Yield();
      toVal := ReadKey(t, i, toKey);
      fromVal := fromVal - t.xacts[i].req.diff;
      toVal := toVal + t.xacts[i].req.diff;
    }

    method Release(t: Entry, i: nat, fromKey: nat, toKey: nat)
      requires Valid() && Npc() == Apply(t, i, UnlockFrom) && i < |t.xacts|
      requires fromKey == t.xacts[i].req.from && toKey == t.xacts[i].req.to
      modifies w, w.kvs.hash, w.kvs.mutex, w.status, w.Infos()
      ensures Valid() && w.Went(old(w.trace)) && Counted() == old(Counted()) && Npc() == Apply(t, i, Announce)
    {
      hide Inv, Run, Start, Next, Cluster.Valid;
      Yield();
      UnlockKey(t, i, fromKey);
      Yield();
      UnlockKey(t, i, toKey);
    }

    /** The notifier is about to use key `k` of transfer `i`. */
    ghost predicate Uses(t: Entry, i: nat, k: nat)
      reads this, w
      requires id < |w.st.lanes| && f < |w.st.lanes[id].links|
    {
      && Npc().Apply? && Npc().e == t && Npc().i == i && i < |t.xacts|
      && match Npc().stage
         case ReadFrom => k == t.xacts[i].req.from
         case WriteFrom(_, _) => k == t.xacts[i].req.from
         case UnlockFrom => k == t.xacts[i].req.from
         case Announce => false
         case _ => k == t.xacts[i].req.to
    }

    method ReadKey(t: Entry, i: nat, k: nat) returns (v: int)
      requires Valid() && Uses(t, i, k) && (Npc().stage.ReadFrom? || Npc().stage.ReadTo?)
      modifies w`st, w`trace
      ensures Valid() && w.Went(old(w.trace)) && Counted() == old(Counted())
      ensures Npc() == Apply(t, i, match old(Npc()).stage
                                   case ReadFrom => ReadTo(v)
                                   case ReadTo(u) => WriteFrom(u - t.xacts[i].req.diff, v + t.xacts[i].req.diff)
                                   case s => s)
    {
      hide Inv, Run, Start, Next, Mirrors, WiresOf, Holds, KVS.Contents, KVS.Valid, Swap, Keys, Progress;
      WorkingOn(w.st, id, f);
      KeyPresent(w.kvs, w.st.sh.db, k);
      v := w.kvs.IndexRead(k);
      NpcUpdate(w.st.lanes[id].links, f, Apply(t, i, StepCommit(w.st.sh, t.lsn, t.xacts[i].req, Npc().stage).stage));
      w.AdvanceNotifier(id, f);
    }

    method WriteKey(t: Entry, i: nat, k: nat, v: int)
      requires Valid() && Uses(t, i, k)
      requires (Npc().stage.WriteFrom? && v == Npc().stage.fromVal) || (Npc().stage.WriteTo? && v == Npc().stage.toVal)
      modifies w`st, w`trace, w.kvs.hash
      ensures Valid() && w.Went(old(w.trace)) && Counted() == old(Counted())
      ensures Npc() == Apply(t, i, if old(Npc()).stage.WriteFrom? then WriteTo(old(Npc()).stage.toVal) else UnlockFrom)
    {
      hide Inv, Run, Start, Next, Mirrors, WiresOf, Holds, KVS.Contents, KVS.Valid, Swap, Keys, Progress;
      WorkingOn(w.st, id, f);
      KeyPresent(w.kvs, w.st.sh.db, k);
      MirrorsUpdate(w.kvs.Contents(), w.st.sh.db, k, v);
      w.kvs.IndexUpdate(k, v);
      NpcUpdate(w.st.lanes[id].links, f, Apply(t, i, StepCommit(w.st.sh, t.lsn, t.xacts[i].req, Npc().stage).stage));
      w.AdvanceNotifier(id, f);
    }

    method UnlockKey(t: Entry, i: nat, k: nat)
      requires Valid() && Uses(t, i, k) && (Npc().stage.UnlockFrom? || Npc().stage.UnlockTo?)
      modifies w`st, w`trace, w.kvs.mutex
      ensures Valid() && w.Went(old(w.trace)) && Counted() == old(Counted())
      ensures Npc() == Apply(t, i, if old(Npc()).stage.UnlockFrom? then UnlockTo else Announce)
    {
      hide Inv, Run, Start, Next, Mirrors, WiresOf, Holds, KVS.Contents, KVS.Valid, Swap, Keys, Progress;
      WorkingOn(w.st, id, f);
      w.kvs.Unlock(k);
      NpcUpdate(w.st.lanes[id].links, f, Apply(t, i, StepCommit(w.st.sh, t.lsn, t.xacts[i].req, Npc().stage).stage));
      w.AdvanceNotifier(id, f);
    }

    /** The commit message for transfer `i`. */
    method Announcement(t: Entry, i: nat)
      requires Valid() && Npc() == Apply(t, i, Announce) && i < |t.xacts|
      modifies w`st, w`trace
      ensures Valid() && w.Went(old(w.trace)) && Counted() == old(Counted())
      ensures if i + 1 < |t.xacts| then Npc() == Apply(t, i + 1, ReadFrom) else Npc().Waiting? && FinishedAs(w.st, t)
    {
      hide Inv, Run, Start, Next, Mirrors, WiresOf, Holds, KVS.Contents, KVS.Valid, Swap, Keys, Progress;
      ApplyingIs(w.st, id, f);
      NpcUpdate(w.st.lanes[id].links, f, if i + 1 < |t.xacts| then Apply(t, i + 1, ReadFrom) else Waiting);
      w.AdvanceNotifier(id, f);
      if i + 1 == |t.xacts| {
        FinishedIs(w.st, t.lsn);
      }
    }
  }

  lemma KeyPresent(kvs: KVS, db: seq<int>, k: nat)
    requires kvs.Valid() && Mirrors(kvs.Contents(), db) && k < |db|
    ensures k in kvs.key[..] && k in kvs.Contents() && kvs.Contents()[k] == db[k]
  {
    assert k in AsMap(kvs.key[..], Column(kvs.hash[..], kvs.slot)).Keys;
  }

  lemma NpcUpdate(links: seq<Link>, f: nat, npc: NotifierPc)
    requires f < |links|
    ensures WiresOf(links[f := links[f].(npc := npc)]) == WiresOf(links)
  {
  }

  /** The entry is finished, its transfers announced in order and its keys released. */
  ghost predicate FinishedAs(s: State, t: Entry) {
    && t.lsn < |s.sh.ledger| && s.sh.ledger[t.lsn].xacts == t.xacts && s.sh.ledger[t.lsn].phase.Finished?
    && s.sh.ledger[t.lsn].commits == t.xacts && s.sh.ledger[t.lsn].released == Keys(t.xacts)
  }

  lemma FinishedIs(s: State, l: nat)
    requires Inv(s) && l < |s.sh.ledger| && s.sh.ledger[l].phase.Finished?
    ensures FinishedAs(s, Entry(l, s.sh.ledger[l].xacts))
  {
    InvTrack(s, l);
  }

  lemma ApplyingIs(s: State, w: nat, f: nat)
    requires Inv(s) && w < |s.lanes| && f < |s.lanes[w].links| && s.lanes[w].links[f].npc.Apply?
    ensures var e := s.lanes[w].links[f].npc.e; e.lsn < |s.sh.ledger| && s.sh.ledger[e.lsn].xacts == e.xacts
  {
    hide Inv;
    ApplierOf(s, s.lanes[w].links[f].npc.e.lsn, w, f);
  }
}
