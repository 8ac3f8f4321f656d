/// The inductive invariant of the logging pipeline: facts about the shared state, facts about one lane, and what a
/// lane may rely on while the others run.

module PipelineInvariant {
  import opened Amounts
  import opened Pipeline
  import Serial

  // ----- the shared state -----

  /** The recorded values are those of the transfer. */
  predicate TransferOk(r: Request, h: Serial.Txn<int>) {
    && (r.from in h.put ==> r.from in h.got && h.put[r.from] == h.got[r.from] - r.diff)
    && (r.to in h.put ==> r.to in h.got && h.put[r.to] == h.got[r.to] + r.diff)
  }

  /** A transfer with its keys in order. */
  predicate Sorted(x: Xact, n: nat) {
    x.req.from < x.req.to < n
  }

  ghost predicate GroupInv(xs: seq<Xact>, n: nat) {
    Disjoint(xs) && forall i :: 0 <= i < |xs| ==> Sorted(xs[i], n)
  }

  predicate Early(p: Phase) { p.Drawn? || p.Logged? || p.Stored? }

  ghost predicate TrackInv(n: nat, cap: nat, followers: nat, lanes: nat, t: Track, h: Serial.Txn<int>, votes: nat) {
    && t.worker < lanes
    && 0 < |t.xacts| <= cap && GroupInv(t.xacts, n)
    && h.put.Keys <= h.got.Keys <= Keys(t.xacts) && t.released <= h.put.Keys
    && (forall i :: 0 <= i < |t.xacts| ==> TransferOk(t.xacts[i].req, h))
    && (Early(t.phase) ==> h == Serial.Txn(map[], map[]) && t.commits == [])
    && (t.phase.Finished? ==> t.released == Keys(t.xacts) && t.commits == t.xacts)
    && (!Early(t.phase) ==> |t.voters| > Half(followers))
    && (forall f :: f in t.voters ==> f < followers) && |t.voters| == votes
  }

  /** A key is entered for the one entry that has not released it yet, and no later entry has it. */
  ghost predicate KeyInv(lock: bool, owner: Owner, ledger: seq<Track>, k: nat) {
    && (lock <==> owner != Free)
    && (owner.Entered? ==> owner.lsn < |ledger|)
    && (forall l :: 0 <= l < |ledger| ==>
          && (owner == Entered(l) <==> k in Keys(ledger[l].xacts) && k !in ledger[l].released)
          && (owner.Entered? && owner.lsn < l ==> k !in Keys(ledger[l].xacts)))
  }

  ghost predicate SharedShape(sh: Shared) {
    && |sh.locks| == |sh.owner| == |sh.db| == |sh.init| && |sh.hist| == |sh.ledger| == sh.lsn && sh.cap > 0
    && forall l: nat :: l in sh.votes ==> l < sh.lsn
  }

  ghost predicate KeysInv(sh: Shared)
    requires SharedShape(sh)
  {
    forall k :: 0 <= k < |sh.db| ==> KeyInv(sh.locks[k], sh.owner[k], sh.ledger, k)
  }

  ghost predicate HandsInv(owner: seq<Owner>, lanes: nat) {
    forall k :: 0 <= k < |owner| && (owner[k].Acquiring? || owner[k].Buffered?) ==> owner[k].w < lanes
  }

  ghost predicate TracksInv(sh: Shared, lanes: nat)
    requires SharedShape(sh)
  {
    forall l :: 0 <= l < |sh.ledger| ==>
      TrackInv(|sh.db|, sh.cap, sh.followers, lanes, sh.ledger[l], sh.hist[l], Count(sh.votes, l))
  }

  /** The table is what the entries wrote, and every value read is what the entries before wrote. */
  ghost predicate SerialInv(sh: Shared) {
    sh.db == Serial.ExecTo(sh.init, sh.hist, |sh.hist|) && Serial.ReadsAgree(sh.init, sh.hist)
  }

  ghost predicate SharedInv(sh: Shared, lanes: nat) {
    SharedShape(sh) && KeysInv(sh) && HandsInv(sh.owner, lanes) && TracksInv(sh, lanes) && SerialInv(sh)
  }

  // ----- a lane: its worker -----

  predicate Acquires(pc: WorkerPc) { pc.LockTo? || pc.Rollback? }

  predicate Tries(pc: WorkerPc) { pc.LockFrom? || pc.LockTo? || pc.Rollback? }

  ghost predicate ShapeInv(n: nat, cap: nat, lane: Lane) {
    && |lane.retry| <= 1 && |lane.buf| <= cap && GroupInv(lane.buf, n)
    && (forall i :: 0 <= i < |lane.queue| ==> Proper(lane.queue[i], n))
    && (forall i :: 0 <= i < |lane.retry| ==> Proper(lane.retry[i], n))
    && (Tries(lane.pc) ==> |lane.retry| == 1 && Sorted(lane.retry[0], n))
    && (lane.pc.Fetch? || Tries(lane.pc) ==> |lane.buf| < cap)
    && (lane.pc.Draw? ==> lane.buf != [])
    && (lane.pc.Append? || lane.pc.Send? ==> lane.buf == [])
    && (lane.pc.Send? ==> lane.pc.f <= |lane.links|)
  }

  /** The worker's locks: the keys in its buffer, and the lower key of a transfer between its two locks. */
  ghost predicate OwnInv(owner: seq<Owner>, w: nat, pc: WorkerPc, retry: seq<Xact>, buf: seq<Xact>) {
    forall k :: 0 <= k < |owner| ==>
      && (owner[k] == Buffered(w) <==> k in Keys(buf))
      && (owner[k] == Acquiring(w) <==> Acquires(pc) && retry != [] && retry[0].req.from == k)
  }

  function InFlight(pc: WorkerPc): seq<Xact> {
    if pc.Append? then pc.e.xacts else []
  }

  function Normal(xs: seq<Xact>): (r: seq<Xact>)
    ensures |r| == |xs|
  {
    seq(|xs|, i requires 0 <= i < |xs| => Swap(xs[i]))
  }

  /** Everything in the lane, oldest first. */
  function Content(lane: Lane): seq<Xact> {
    Flat(lane.log) + InFlight(lane.pc) + lane.buf + lane.retry + lane.queue
  }

  ghost predicate OrderInv(lane: Lane) {
    Normal(Content(lane)) == Normal(lane.enq)
  }

  // ----- a lane: its entries -----

  predicate Tracked(ledger: seq<Track>, w: nat, e: Entry) {
    e.lsn < |ledger| && ledger[e.lsn].worker == w && ledger[e.lsn].xacts == e.xacts
  }

  predicate Applies(npc: NotifierPc, e: Entry) {
    npc.Apply? && npc.e == e
  }

  /** An entry is where its phase says. */
  ghost predicate PlaceInv(t: Track, l: nat, pc: WorkerPc, log: seq<Entry>, tasks: seq<Entry>, links: seq<Link>) {
    var e := Entry(l, t.xacts);
    && (t.phase.Drawn? <==> pc == Append(e))
    && (t.phase.Drawn? ==> t.voters == {})
    && (!t.phase.Drawn? ==> t.pos < |log| && log[t.pos] == e)
    && (t.phase.Logged? <==> pc.Send? && pc.e == e)
    && (t.phase.Stored? <==> e in tasks)
    && (t.phase.Loaded? ==> t.phase.f < |links| && Applies(links[t.phase.f].npc, e))
  }

  ghost predicate PlacesInv(ledger: seq<Track>, w: nat, pc: WorkerPc, log: seq<Entry>, tasks: seq<Entry>,
                            links: seq<Link>) {
    forall l :: 0 <= l < |ledger| && ledger[l].worker == w ==> PlaceInv(ledger[l], l, pc, log, tasks, links)
  }

  /** The worker's log: its entries, in the order of their numbers. */
  ghost predicate LogInv(ledger: seq<Track>, w: nat, pc: WorkerPc, log: seq<Entry>) {
    && (forall i :: 0 <= i < |log| ==>
          Tracked(ledger, w, log[i]) && ledger[log[i].lsn].pos == i && !ledger[log[i].lsn].phase.Drawn?)
    && (forall i, j :: 0 <= i < j < |log| ==> log[i].lsn < log[j].lsn)
    && (pc.Append? ==>
          Tracked(ledger, w, pc.e) && ledger[pc.e.lsn].phase.Drawn?
          && forall i :: 0 <= i < |log| ==> log[i].lsn < pc.e.lsn)
    && (pc.Send? ==> log != [] && pc.e == log[|log| - 1] && ledger[pc.e.lsn].phase.Logged?)
  }

  ghost predicate TasksInv(ledger: seq<Track>, w: nat, tasks: seq<Entry>) {
    && (forall i :: 0 <= i < |tasks| ==> Tracked(ledger, w, tasks[i]) && ledger[tasks[i].lsn].phase.Stored?)
    && (forall i, j :: 0 <= i < j < |tasks| ==> tasks[i].lsn != tasks[j].lsn)
  }

  // ----- a lane: its links -----

  /** How many entries of the log have been sent to follower `f`. */
  function Sent(pc: WorkerPc, log: seq<Entry>, f: nat): nat {
    if pc.Send? && pc.f <= f && log != [] then |log| - 1 else |log|
  }

  /** The follower's log and the channel to it are the log so far. */
  ghost predicate ChanInv(log: seq<Entry>, sent: nat, chan: seq<Entry>, flog: seq<Entry>) {
    sent <= |log| && flog + chan == log[..sent]
  }

  /** Every entry in the follower's log is counted, acknowledged, or about to be acknowledged, in this order. */
  ghost predicate AckInv(flog: seq<Entry>, counted: nat, acks: seq<nat>, rpc: ReceiverPc) {
    && counted + |acks| + (if rpc.Replying? then 1 else 0) == |flog|
    && (forall i :: 0 <= i < |acks| ==> acks[i] == flog[counted + i].lsn)
    && (rpc.Replying? ==> rpc.lsn == flog[|flog| - 1].lsn)
  }

  predicate VoteInv(t: Track, f: nat, counted: nat) {
    f in t.voters <==> !t.phase.Drawn? && t.pos < counted
  }

  ghost predicate VotesInv(ledger: seq<Track>, w: nat, f: nat, counted: nat) {
    forall l :: 0 <= l < |ledger| && ledger[l].worker == w ==> VoteInv(ledger[l], f, counted)
  }

  /** The keys read, written and released when transfer `i` of a task has come to `stage`. */
  predicate Progress(t: Track, h: Serial.Txn<int>, xs: seq<Xact>, i: nat, stage: Stage)
    requires i < |xs|
  {
    var done, from, to, d := Keys(xs[..i]), xs[i].req.from, xs[i].req.to, xs[i].req.diff;
    && t.commits == xs[..i]
    && match stage
       case ReadFrom => h.got.Keys == done && h.put.Keys == done && t.released == done
       case ReadTo(v) => h.got.Keys == done + {from} && h.put.Keys == done && t.released == done && v == h.got[from]
       case WriteFrom(v, u) => h.got.Keys == done + {from, to} && h.put.Keys == done && t.released == done
                               && v == h.got[from] - d && u == h.got[to] + d
       case WriteTo(u) => h.got.Keys == done + {from, to} && h.put.Keys == done + {from} && t.released == done
                          && u == h.got[to] + d
       case UnlockFrom => h.got.Keys == done + {from, to} && h.put.Keys == done + {from, to} && t.released == done
       case UnlockTo => h.got.Keys == done + {from, to} && h.put.Keys == done + {from, to}
                        && t.released == done + {from}
       case Announce => h.got.Keys == done + {from, to} && h.put.Keys == done + {from, to}
                        && t.released == done + {from, to}
  }

  ghost predicate NotifierInv(ledger: seq<Track>, hist: seq<Serial.Txn<int>>, followers: nat, w: nat, f: nat,
                              npc: NotifierPc) {
    match npc
    case Waiting => true
    case Load(l) =>
      l < |ledger| && ledger[l].worker == w && f in ledger[l].voters && |ledger[l].voters| > Half(followers)
    case Apply(e, i, stage) =>
      && Tracked(ledger, w, e) && e.lsn < |hist| && ledger[e.lsn].phase == Loaded(f)
      && i < |e.xacts| && Progress(ledger[e.lsn], hist[e.lsn], e.xacts, i, stage)
  }

  ghost predicate LinkInv(ledger: seq<Track>, hist: seq<Serial.Txn<int>>, followers: nat,
                          w: nat, f: nat, log: seq<Entry>, sent: nat, link: Link) {
    && ChanInv(log, sent, link.chan, link.flog)
    && AckInv(link.flog, link.counted, link.acks, link.rpc)
    && VotesInv(ledger, w, f, link.counted)
    && NotifierInv(ledger, hist, followers, w, f, link.npc)
  }

  /** A worker's log, its tasks and its links agree with what has become of its entries. */
  ghost predicate EntriesInv(ledger: seq<Track>, hist: seq<Serial.Txn<int>>, followers: nat,
                             w: nat, pc: WorkerPc, log: seq<Entry>, tasks: seq<Entry>, links: seq<Link>) {
    && PlacesInv(ledger, w, pc, log, tasks, links) && LogInv(ledger, w, pc, log) && TasksInv(ledger, w, tasks)
    && forall f :: 0 <= f < |links| ==> LinkInv(ledger, hist, followers, w, f, log, Sent(pc, log, f), links[f])
  }

  ghost predicate LaneInv(sh: Shared, w: nat, lane: Lane) {
    && |lane.links| == sh.followers
    && ShapeInv(|sh.db|, sh.cap, lane) && OwnInv(sh.owner, w, lane.pc, lane.retry, lane.buf) && OrderInv(lane)
    && EntriesInv(sh.ledger, sh.hist, sh.followers, w, lane.pc, lane.log, lane.tasks, lane.links)
  }

  ghost predicate Inv(s: State) {
    && SharedInv(s.sh, |s.lanes|)
    && forall w :: 0 <= w < |s.lanes| ==> LaneInv(s.sh, w, s.lanes[w])
  }

  // ----- what one lane may do to another -----

  /** The entries of lane `v` stay as they are. */
  ghost predicate LedgerMoves(sh: Shared, sh': Shared, v: nat) {
    && |sh.ledger| <= |sh'.ledger| && |sh.hist| == |sh.ledger| && |sh'.hist| == |sh'.ledger|
    && (forall l :: 0 <= l < |sh.ledger| ==>
          && sh'.ledger[l].worker == sh.ledger[l].worker
          && (sh.ledger[l].worker == v ==> sh'.ledger[l] == sh.ledger[l] && sh'.hist[l] == sh.hist[l]))
    && (forall l :: |sh.ledger| <= l < |sh'.ledger| ==> sh'.ledger[l].worker != v)
  }

  /** The locks of worker `v` stay as they are. */
  ghost predicate OwnersMove(owner: seq<Owner>, owner': seq<Owner>, v: nat) {
    && |owner'| == |owner|
    && (forall k :: 0 <= k < |owner| ==>
          && (owner'[k] == Buffered(v) <==> owner[k] == Buffered(v))
          && (owner'[k] == Acquiring(v) <==> owner[k] == Acquiring(v)))
  }

  /** The steps of other lanes, as lane `v` sees them. */
  ghost predicate Rely(sh: Shared, sh': Shared, v: nat) {
    && sh'.followers == sh.followers && sh'.cap == sh.cap && |sh'.db| == |sh.db|
    && LedgerMoves(sh, sh', v) && OwnersMove(sh.owner, sh'.owner, v)
  }

  /** The invariant of a lane is stable under the steps of the others. */
  lemma RelyKeeps(sh: Shared, sh': Shared, v: nat, lane: Lane)
    requires Rely(sh, sh', v) && LaneInv(sh, v, lane)
    ensures LaneInv(sh', v, lane)
  {
    hide Keys, Half, Progress, ShapeInv, OrderInv, ChanInv, AckInv;
    forall f | 0 <= f < |lane.links|
      ensures LinkInv(sh'.ledger, sh'.hist, sh'.followers, v, f, lane.log, Sent(lane.pc, lane.log, f), lane.links[f])
    {
      assert NotifierInv(sh.ledger, sh.hist, sh.followers, v, f, lane.links[f].npc);
      assert VotesInv(sh.ledger, v, f, lane.links[f].counted);
    }
    assert PlacesInv(sh'.ledger, v, lane.pc, lane.log, lane.tasks, lane.links);
  }

  /** A step of lane `w` keeps both invariants and what the other lanes rely on. */
  ghost predicate Keeps(sh: Shared, w: nat, lanes: nat, p: Pair) {
    && SharedInv(p.sh, lanes) && LaneInv(p.sh, w, p.lane)
    && forall v: nat :: v != w ==> Rely(sh, p.sh, v)
  }
}
