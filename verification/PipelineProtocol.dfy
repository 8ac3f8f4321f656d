/// The two-phase-locking engine with replicated group logging as a step machine.
///
/// There is one lane for each worker thread of the leader: the queue its producers fill, its buffer, its log, its
/// task list, and for each follower a link, which is the connection to the follower's log receiver, the follower's
/// copy of the log, the connection back, and the notifier thread that serves it. All lanes share the table, its
/// locks, the counter of log sequence numbers and the vote counts. Every access to something shared is one step, and
/// which thread moves next is arbitrary. Fields marked `auxiliary` record history for the proofs; no branch depends
/// on them.

module Pipeline {
  import opened Amounts
  import Serial

  /** `trans_req`. */
  datatype Xact = Xact(client: nat, command: int, req: Request)

  /** A group of transfers under one log sequence number: an entry of a log, or a task. */
  datatype Entry = Entry(lsn: nat, xacts: seq<Xact>)

  /** Where a worker stands between two shared accesses. */
  datatype WorkerPc =
    | Fetch                                 // about to take a transfer from the queue, or the refused one again
    | LockFrom                              // `transferWork`: about to try the lock of the lower key
    | LockTo                                // ... and of the higher key
    | Rollback                              // ... and to give back the lower key
    | Flush                                 // about to decide whether the buffer is to be logged
    | Draw                                  // `loggingWork`: about to draw a log sequence number
    | Append(e: Entry)                      // ... and to append the entry to the log
    | Send(e: Entry, f: nat)                // about to send the entry to follower f, or, after the last, to store
                                            // the task

  /** Where a log receiver of a follower stands. */
  datatype ReceiverPc = Receiving | Replying(lsn: nat)

  /** The steps of `commitWork` and of what follows it. */
  datatype Stage =
    | ReadFrom
    | ReadTo(fromVal: int)
    | WriteFrom(fromVal: int, toVal: int)   // the new values
    | WriteTo(toVal: int)
    | UnlockFrom
    | UnlockTo
    | Announce                              // the commit message to the client

  /** Where a notifier stands. */
  datatype NotifierPc =
    | Waiting                               // for an acknowledgement
    | Load(lsn: nat)                        // past the quorum test, about to load the task
    | Apply(e: Entry, i: nat, stage: Stage) // working on transfer i of the task

  datatype Link = Link(
    chan: seq<Entry>,       // entries sent and not yet received
    flog: seq<Entry>,       // the follower's log
    rpc: ReceiverPc,
    acks: seq<nat>,         // acknowledgements sent and not yet received
    npc: NotifierPc,
    counted: nat)           // auxiliary: how many acknowledgements the notifier has counted

  datatype Lane = Lane(
    queue: seq<Xact>,       // xactQ
    retry: seq<Xact>,       // the transfer that was refused a lock; empty when the worker may dequeue
    pc: WorkerPc,
    buf: seq<Xact>,         // logBuffer
    log: seq<Entry>,
    tasks: seq<Entry>,      // taskList
    links: seq<Link>,
    enq: seq<Xact>)         // auxiliary: everything ever enqueued

  /** How far an entry has come. */
  datatype Phase = Drawn | Logged | Stored | Loaded(f: nat) | Finished

  /** What has become of a log sequence number. */
  datatype Track = Track(worker: nat, xacts: seq<Xact>, phase: Phase,
                         pos: nat,               // its position in the worker's log
                         voters: set<nat>,       // the followers whose acknowledgement has been counted
                         released: set<nat>,     // the keys unlocked
                         commits: seq<Xact>)     // the transfers announced

  /** Who a locked key belongs to. */
  datatype Owner = Free | Acquiring(w: nat) | Buffered(w: nat) | Entered(lsn: nat)

  datatype Shared = Shared(
    followers: nat,         // the cluster is the leader and its followers
    cap: nat,               // MAX_GROUP_ENTRY
    db: seq<int>,
    locks: seq<bool>,
    lsn: nat,               // the next log sequence number
    votes: map<nat, nat>,
    init: seq<int>,         // auxiliary: the table at the start
    owner: seq<Owner>,      // auxiliary
    ledger: seq<Track>,     // auxiliary: by log sequence number
    hist: seq<Serial.Txn<int>>) // auxiliary: what each entry has read and written so far

  datatype State = State(sh: Shared, lanes: seq<Lane>)

  /** The outcome of a step: the shared state and the lane it was taken in. */
  datatype Pair = Pair(sh: Shared, lane: Lane)

  // ----- transfers and groups -----

  /** The same transfer of the same client, but for the places of the two keys. */
  predicate SameTransfer(x: Xact, y: Xact) {
    && y.client == x.client && y.command == x.command && y.req.diff == x.req.diff
    && ((y.req.from == x.req.from && y.req.to == x.req.to) || (y.req.from == x.req.to && y.req.to == x.req.from))
  }

  function Swap(x: Xact): (y: Xact)
    ensures SameTransfer(x, y) && y.req.from <= y.req.to
  {
    x.(req := SwapKeys(x.req))
  }

  /** What a client may ask for. */
  predicate Proper(x: Xact, n: nat) {
    x.req.from != x.req.to && x.req.from < n && x.req.to < n
  }

  function Keys(xs: seq<Xact>): set<nat> {
    if xs == [] then {} else Keys(xs[..|xs| - 1]) + {xs[|xs| - 1].req.from, xs[|xs| - 1].req.to}
  }

  /** The transfers have no key in common. */
  ghost predicate Disjoint(xs: seq<Xact>) {
    xs != [] ==>
      var front, r := xs[..|xs| - 1], xs[|xs| - 1].req;
      Disjoint(front) && r.from != r.to && r.from !in Keys(front) && r.to !in Keys(front)
  }

  /** All transfers of a log, in order. */
  function Flat(log: seq<Entry>): seq<Xact> {
    if log == [] then [] else Flat(log[..|log| - 1]) + log[|log| - 1].xacts
  }

  function Count(votes: map<nat, nat>, lsn: nat): nat {
    if lsn in votes then votes[lsn] else 0
  }

  /** `clusterSize / 2`. */
  function Half(followers: nat): nat {
    (followers + 1) / 2
  }

  // ----- the steps of a worker -----

  /** `canDoXactDeq`: take the next transfer, unless one is waiting to be tried again. */
  function StepFetch(lane: Lane): Lane {
    if lane.retry != [] then lane.(retry := [Swap(lane.retry[0])], pc := LockFrom)
    else if lane.queue != [] then lane.(retry := [Swap(lane.queue[0])], queue := lane.queue[1..], pc := LockFrom)
    else lane.(pc := Flush)
  }

  function SetLock(sh: Shared, k: nat, owner: Owner): Shared
    requires k < |sh.locks| == |sh.owner|
  {
    sh.(locks := sh.locks[k := !owner.Free?], owner := sh.owner[k := owner])
  }

  function StepLockFrom(sh: Shared, w: nat, lane: Lane): Pair
    requires lane.retry != [] && lane.retry[0].req.from < |sh.locks| == |sh.owner|
  {
    var k := lane.retry[0].req.from;
    if sh.locks[k] then Pair(sh, lane.(pc := Flush))
    else Pair(SetLock(sh, k, Acquiring(w)), lane.(pc := LockTo))
  }

  function StepLockTo(sh: Shared, w: nat, lane: Lane): Pair
    requires lane.retry != [] && lane.retry[0].req.to < |sh.locks| == |sh.owner|
    requires lane.retry[0].req.from < |sh.owner|
  {
    var r := lane.retry[0].req;
    if sh.locks[r.to] then Pair(sh, lane.(pc := Rollback))
    else
      var sh1 := SetLock(sh, r.to, Buffered(w));
      Pair(sh1.(owner := sh1.owner[r.from := Buffered(w)]),
           lane.(buf := lane.buf + [lane.retry[0]], retry := [], pc := Flush))
  }

  function StepRollback(sh: Shared, lane: Lane): Pair
    requires lane.retry != [] && lane.retry[0].req.from < |sh.locks| == |sh.owner|
  {
    Pair(SetLock(sh, lane.retry[0].req.from, Free), lane.(pc := Flush))
  }

  /** `timeout` says whether LOG_TIMEOUT has passed since the last send. */
  function StepFlush(sh: Shared, lane: Lane, timeout: bool): Lane {
    lane.(pc := if (timeout && lane.buf != []) || |lane.buf| == sh.cap then Draw else Fetch)
  }

  function Enter(owner: seq<Owner>, keys: set<nat>, lsn: nat): (r: seq<Owner>)
    ensures |r| == |owner|
  {
    seq(|owner|, k requires 0 <= k < |owner| => if k in keys then Entered(lsn) else owner[k])
  }

  function StepDraw(sh: Shared, w: nat, lane: Lane): Pair {
    Pair(sh.(lsn := sh.lsn + 1,
             owner := Enter(sh.owner, Keys(lane.buf), |sh.ledger|),
             ledger := sh.ledger + [Track(w, lane.buf, Drawn, 0, {}, {}, [])],
             hist := sh.hist + [Serial.Txn(map[], map[])]),
         lane.(buf := [], pc := Append(Entry(sh.lsn, lane.buf))))
  }

  function SetTrack(sh: Shared, l: nat, t: Track): Shared
    requires l < |sh.ledger|
  {
    sh.(ledger := sh.ledger[l := t])
  }

  function StepAppend(sh: Shared, lane: Lane, e: Entry): Pair
    requires e.lsn < |sh.ledger|
  {
    Pair(SetTrack(sh, e.lsn, sh.ledger[e.lsn].(phase := Logged, pos := |lane.log|)),
         lane.(log := lane.log + [e], pc := Send(e, 0)))
  }

  function SetLink(lane: Lane, f: nat, link: Link): Lane
    requires f < |lane.links|
  {
    lane.(links := lane.links[f := link])
  }

  function StepSend(sh: Shared, lane: Lane, e: Entry, f: nat): Pair
    requires e.lsn < |sh.ledger|
  {
    if f < |lane.links| then
      Pair(sh, SetLink(lane, f, lane.links[f].(chan := lane.links[f].chan + [e])).(pc := Send(e, f + 1)))
    else
      Pair(SetTrack(sh, e.lsn, sh.ledger[e.lsn].(phase := Stored)), lane.(tasks := lane.tasks + [e], pc := Fetch))
  }

  // ----- the steps of a log receiver -----

  function Receive(link: Link): Link
    requires link.chan != []
  {
    link.(flog := link.flog + [link.chan[0]], chan := link.chan[1..], rpc := Replying(link.chan[0].lsn))
  }

  function Reply(link: Link): Link
    requires link.rpc.Replying?
  {
    link.(acks := link.acks + [link.rpc.lsn], rpc := Receiving)
  }

  // ----- the steps of a notifier -----

  /** `addVoteCount` and the quorum test. */
  function StepCount(sh: Shared, lane: Lane, f: nat): Pair
    requires f < |lane.links| && lane.links[f].acks != [] && lane.links[f].acks[0] < |sh.ledger|
  {
    var link := lane.links[f];
    var l := link.acks[0];
    var count := Count(sh.votes, l) + 1;
    Pair(SetTrack(sh, l, sh.ledger[l].(voters := sh.ledger[l].voters + {f})).(votes := sh.votes[l := count]),
         SetLink(lane, f, link.(acks := link.acks[1..], counted := link.counted + 1,
                                npc := if count > Half(sh.followers) then Load(l) else Waiting)))
  }

  /** The position of the first task with a log sequence number, or the number of tasks. */
  function FindTask(tasks: seq<Entry>, lsn: nat): (i: nat)
    ensures i <= |tasks|
    ensures i < |tasks| ==> tasks[i].lsn == lsn
    ensures forall j :: 0 <= j < i ==> tasks[j].lsn != lsn
  {
    if tasks == [] || tasks[0].lsn == lsn then 0 else FindTask(tasks[1..], lsn) + 1
  }

  /** `taskLoad`: the first notifier to come takes the task out; for the others there is none. */
  function StepLoad(sh: Shared, lane: Lane, f: nat, lsn: nat): Pair
    requires f < |lane.links|
    requires var i := FindTask(lane.tasks, lsn); i < |lane.tasks| ==> lsn < |sh.ledger|
  {
    var link, i := lane.links[f], FindTask(lane.tasks, lsn);
    if i < |lane.tasks| then
      Pair(SetTrack(sh, lsn, sh.ledger[lsn].(phase := Loaded(f))),
           SetLink(lane, f, link.(npc := Apply(lane.tasks[i], 0, ReadFrom)))
             .(tasks := lane.tasks[..i] + lane.tasks[i + 1..]))
    else Pair(sh, SetLink(lane, f, link.(npc := Waiting)))
  }

  /** The shared state, the next stage of the transfer. */
  datatype Work = Work(sh: Shared, stage: Stage)

  function Got(sh: Shared, l: nat, k: nat, v: int): Shared
    requires l < |sh.hist|
  {
    sh.(hist := sh.hist[l := sh.hist[l].(got := sh.hist[l].got[k := v])])
  }

  function Put(sh: Shared, l: nat, k: nat, v: int): Shared
    requires l < |sh.hist| && k < |sh.db|
  {
    sh.(db := sh.db[k := v], hist := sh.hist[l := sh.hist[l].(put := sh.hist[l].put[k := v])])
  }

  function Release(sh: Shared, l: nat, k: nat): Shared
    requires l < |sh.ledger| && k < |sh.locks| == |sh.owner|
  {
    SetTrack(SetLock(sh, k, Free), l, sh.ledger[l].(released := sh.ledger[l].released + {k}))
  }

  predicate InRange(sh: Shared, l: nat, r: Request) {
    && l < |sh.ledger| == |sh.hist| && |sh.locks| == |sh.owner| == |sh.db|
    && r.from < |sh.db| && r.to < |sh.db|
  }

  /** `commitWork`, one access at a time. */
  function StepCommit(sh: Shared, l: nat, r: Request, stage: Stage): Work
    requires InRange(sh, l, r) && !stage.Announce?
  {
    match stage
    case ReadFrom => Work(Got(sh, l, r.from, sh.db[r.from]), ReadTo(sh.db[r.from]))
    case ReadTo(v) => Work(Got(sh, l, r.to, sh.db[r.to]), WriteFrom(v - r.diff, sh.db[r.to] + r.diff))
    case WriteFrom(v, u) => Work(Put(sh, l, r.from, v), WriteTo(u))
    case WriteTo(u) => Work(Put(sh, l, r.to, u), UnlockFrom)
    case UnlockFrom => Work(Release(sh, l, r.from), UnlockTo)
    case UnlockTo => Work(Release(sh, l, r.to), Announce)
  }

  /** The commit message, and on to the next transfer of the task. */
  function StepAnnounce(sh: Shared, e: Entry, i: nat): Shared
    requires e.lsn < |sh.ledger| && i < |e.xacts|
  {
    var t := sh.ledger[e.lsn];
    SetTrack(sh, e.lsn, t.(commits := t.commits + [e.xacts[i]],
                           phase := if i + 1 < |e.xacts| then t.phase else Finished))
  }

  function StepApply(sh: Shared, lane: Lane, f: nat, e: Entry, i: nat, stage: Stage): Pair
    requires f < |lane.links| && i < |e.xacts| && InRange(sh, e.lsn, e.xacts[i].req)
  {
    var link := lane.links[f];
    if stage.Announce? then
      Pair(StepAnnounce(sh, e, i),
           SetLink(lane, f, link.(npc := if i + 1 < |e.xacts| then Apply(e, i + 1, ReadFrom) else Waiting)))
    else
      var work := StepCommit(sh, e.lsn, e.xacts[i].req, stage);
      Pair(work.sh, SetLink(lane, f, link.(npc := Apply(e, i, work.stage))))
  }

  // ----- the machine -----

  datatype Action =
    | Enqueue(x: Xact)          // a producer
    | Worker(timeout: bool)
    | Receiver(f: nat)
    | Notifier(f: nat)

  datatype Step = Step(w: nat, a: Action)

  predicate WorkerEnabled(sh: Shared, lane: Lane) {
    && |sh.locks| == |sh.owner|
    && match lane.pc
       case LockFrom => lane.retry != [] && lane.retry[0].req.from < |sh.locks|
       case Rollback => lane.retry != [] && lane.retry[0].req.from < |sh.locks|
       case LockTo => lane.retry != [] && lane.retry[0].req.from < |sh.locks| && lane.retry[0].req.to < |sh.locks|
       case Append(e) => e.lsn < |sh.ledger|
       case Send(e, _) => e.lsn < |sh.ledger|
       case _ => true
  }

  function StepWorker(sh: Shared, w: nat, lane: Lane, timeout: bool): Pair
    requires WorkerEnabled(sh, lane)
  {
    match lane.pc
    case Fetch => Pair(sh, StepFetch(lane))
    case LockFrom => StepLockFrom(sh, w, lane)
    case LockTo => StepLockTo(sh, w, lane)
    case Rollback => StepRollback(sh, lane)
    case Flush => Pair(sh, StepFlush(sh, lane, timeout))
    case Draw => StepDraw(sh, w, lane)
    case Append(e) => StepAppend(sh, lane, e)
    case Send(e, f) => StepSend(sh, lane, e, f)
  }

  /** A receiver acknowledges what it has logged before it receives again. */
  predicate ReceiverEnabled(link: Link) {
    link.rpc.Receiving? ==> link.chan != []
  }

  function StepReceiver(link: Link): Link
    requires ReceiverEnabled(link)
  {
    if link.rpc.Receiving? then Receive(link) else Reply(link)
  }

  predicate NotifierEnabled(sh: Shared, lane: Lane, f: nat) {
    && f < |lane.links|
    && match lane.links[f].npc
       case Waiting => lane.links[f].acks != [] && lane.links[f].acks[0] < |sh.ledger|
       case Load(lsn) => lsn < |sh.ledger|
       case Apply(e, i, _) => i < |e.xacts| && InRange(sh, e.lsn, e.xacts[i].req)
  }

  function StepNotifier(sh: Shared, lane: Lane, f: nat): Pair
    requires NotifierEnabled(sh, lane, f)
  {
    match lane.links[f].npc
    case Waiting => StepCount(sh, lane, f)
    case Load(lsn) => StepLoad(sh, lane, f, lsn)
    case Apply(e, i, stage) => StepApply(sh, lane, f, e, i, stage)
  }

  function StepEnqueue(lane: Lane, x: Xact): Lane {
    lane.(queue := lane.queue + [x], enq := lane.enq + [x])
  }

  predicate Enabled(sh: Shared, lane: Lane, a: Action) {
    match a
    case Enqueue(x) => Proper(x, |sh.db|)
    case Worker(_) => WorkerEnabled(sh, lane)
    case Receiver(f) => f < |lane.links| && ReceiverEnabled(lane.links[f])
    case Notifier(f) => NotifierEnabled(sh, lane, f)
  }

  function Act(sh: Shared, w: nat, lane: Lane, a: Action): Pair
    requires Enabled(sh, lane, a)
  {
    match a
    case Enqueue(x) => Pair(sh, StepEnqueue(lane, x))
    case Worker(timeout) => StepWorker(sh, w, lane, timeout)
    case Receiver(f) => Pair(sh, SetLink(lane, f, StepReceiver(lane.links[f])))
    case Notifier(f) => StepNotifier(sh, lane, f)
  }

  /** One step. A step that is not enabled changes nothing. */
  function Next(s: State, step: Step): State {
    if step.w < |s.lanes| && Enabled(s.sh, s.lanes[step.w], step.a) then
      var p := Act(s.sh, step.w, s.lanes[step.w], step.a);
      State(p.sh, s.lanes[step.w := p.lane])
    else s
  }

  /** Every sequence of steps is a run. */
  function Run(s: State, steps: seq<Step>): State {
    if steps == [] then s else Next(Run(s, steps[..|steps| - 1]), steps[|steps| - 1])
  }

  const NEW_LINK := Link([], [], Receiving, [], Waiting, 0)

  /** A leader and its followers with empty logs, and a table with no lock taken. */
  ghost predicate Start(s: State) {
    && s.sh.cap > 0 && s.sh.lsn == 0 && s.sh.votes == map[]
    && s.sh.init == s.sh.db && |s.sh.locks| == |s.sh.owner| == |s.sh.db|
    && (forall k :: 0 <= k < |s.sh.db| ==> !s.sh.locks[k] && s.sh.owner[k] == Free)
    && s.sh.ledger == [] && s.sh.hist == []
    && forall w :: 0 <= w < |s.lanes| ==>
         && s.lanes[w] == Lane([], [], Fetch, [], [], [], s.lanes[w].links, [])
         && |s.lanes[w].links| == s.sh.followers
         && forall f :: 0 <= f < s.sh.followers ==> s.lanes[w].links[f] == NEW_LINK
  }
}
