/// What the logging pipeline guarantees in every run.

module PipelineTheorems {
  import opened Pipeline
  import opened PipelineInvariant
  import PipelineWorker
  import opened PipelineLogging
  import opened PipelineCommit
  import opened PipelineRuns
  import Counting
  import Serial

  /** `s` is reached from `s0` by some schedule of some requests. */
  ghost predicate Reachable(s0: State, s: State) {
    Start(s0) && exists steps :: s == Run(s0, steps)
  }

  lemma ReachableInv(s0: State, s: State)
    requires Reachable(s0, s)
    ensures Inv(s) && s.sh.init == s0.sh.db && |s.lanes| == |s0.lanes|
    ensures s.sh.followers == s0.sh.followers && s.sh.cap == s0.sh.cap
    ensures SharedShape(s.sh)
  {
    hide LaneInv, KeysInv, TracksInv, SerialInv, Next;
    var steps :| s == Run(s0, steps);
    RunKeeps(s0, steps);
  }

  lemma InvTrack(s: State, l: nat)
    requires Inv(s) && l < |s.sh.ledger|
    ensures |s.sh.hist| == |s.sh.ledger| && s.sh.ledger[l].worker < |s.lanes|
    ensures TrackInv(|s.sh.db|, s.sh.cap, s.sh.followers, |s.lanes|, s.sh.ledger[l], s.sh.hist[l], Count(s.sh.votes, l))
  {
    hide LaneInv, TrackInv, KeysInv, SerialInv;
    TrackOf(s.sh, |s.lanes|, l);
    assert TrackInv(|s.sh.db|, s.sh.cap, s.sh.followers, |s.lanes|, s.sh.ledger[l], s.sh.hist[l], Count(s.sh.votes, l));
    TrackWorker(|s.sh.db|, s.sh.cap, s.sh.followers, |s.lanes|, s.sh.ledger[l], s.sh.hist[l], Count(s.sh.votes, l));
  }

  lemma TrackWorker(n: nat, cap: nat, followers: nat, lanes: nat, t: Track, h: Serial.Txn<int>, votes: nat)
    requires TrackInv(n, cap, followers, lanes, t, h, votes)
    ensures t.worker < lanes
  {
  }

  lemma InvPlace(s: State, l: nat)
    requires Inv(s) && l < |s.sh.ledger|
    ensures var t := s.sh.ledger[l];
            && t.worker < |s.lanes|
            && var lane := s.lanes[t.worker]; PlaceInv(t, l, lane.pc, lane.log, lane.tasks, lane.links)
  {
    InvTrack(s, l);
    hide SharedInv, LogInv, TasksInv, LinkInv, ShapeInv, OwnInv, OrderInv, PlaceInv, TrackInv;
    assert LaneInv(s.sh, s.sh.ledger[l].worker, s.lanes[s.sh.ledger[l].worker]);
  }

  lemma InvKey(s: State, k: nat)
    requires Inv(s) && k < |s.sh.db|
    ensures |s.sh.locks| == |s.sh.owner| == |s.sh.db|
    ensures KeyInv(s.sh.locks[k], s.sh.owner[k], s.sh.ledger, k)
    ensures s.sh.owner[k].Acquiring? || s.sh.owner[k].Buffered? ==> s.sh.owner[k].w < |s.lanes|
  {
    hide LaneInv, TrackInv, KeyInv, SerialInv;
  }

  lemma InvLink(s: State, w: nat, f: nat)
    requires Inv(s) && w < |s.lanes| && f < |s.lanes[w].links|
    ensures var lane := s.lanes[w];
            LinkInv(s.sh.ledger, s.sh.hist, s.sh.followers, w, f, lane.log, Sent(lane.pc, lane.log, f), lane.links[f])
  {
    hide SharedInv, LogInv, TasksInv, LinkInv, ShapeInv, OwnInv, OrderInv, PlacesInv;
    assert LaneInv(s.sh, w, s.lanes[w]);
  }

  // ----- the serial order -----

  /** The order of the log sequence numbers is a serial order, although entries commit in any order and any number
      of them at once: at every moment the table is what the recorded writes make of the initial table when they are
      executed one entry after the other, each `commitWork` read what that execution puts there, and it wrote what
      its transfer says. A finished entry has read and written the keys of all its transfers. */
  lemma LsnOrderIsSerial(s0: State, s: State)
    requires Reachable(s0, s)
    ensures |s.sh.hist| == |s.sh.ledger| == s.sh.lsn
    ensures s.sh.db == Serial.ExecTo(s0.sh.db, s.sh.hist, |s.sh.hist|)
    ensures Serial.ReadsAgree(s0.sh.db, s.sh.hist)
    ensures forall l, i :: 0 <= l < s.sh.lsn && 0 <= i < |s.sh.ledger[l].xacts| ==>
              TransferOk(s.sh.ledger[l].xacts[i].req, s.sh.hist[l])
    ensures forall l :: 0 <= l < s.sh.lsn ==>
              && s.sh.hist[l].put.Keys <= s.sh.hist[l].got.Keys <= Keys(s.sh.ledger[l].xacts)
              && (s.sh.ledger[l].phase.Finished? ==> s.sh.hist[l].put.Keys == Keys(s.sh.ledger[l].xacts))
  {
    hide Reachable, LaneInv, Keys, TransferOk, GroupInv, KeysInv;
    ReachableInv(s0, s);
    forall l | 0 <= l < s.sh.lsn
      ensures forall i :: 0 <= i < |s.sh.ledger[l].xacts| ==> TransferOk(s.sh.ledger[l].xacts[i].req, s.sh.hist[l])
      ensures s.sh.hist[l].put.Keys <= s.sh.hist[l].got.Keys <= Keys(s.sh.ledger[l].xacts)
      ensures s.sh.ledger[l].phase.Finished? ==> s.sh.hist[l].put.Keys == Keys(s.sh.ledger[l].xacts)
    {
      InvTrack(s, l);
    }
  }

  ghost predicate Shares(s: State, l: nat, m: nat, k: nat) {
    l < m < |s.sh.ledger| && k in Keys(s.sh.ledger[l].xacts) && k in Keys(s.sh.ledger[m].xacts)
  }

  /** Of two entries that share a key, the one with the smaller number is done with the key, read, written and
      unlocked, before the other one even has a number. */
  lemma ConflictsFollowLsns(s0: State, s: State, l: nat, m: nat, k: nat)
    requires Reachable(s0, s) && Shares(s, l, m, k)
    ensures |s.sh.hist| == |s.sh.ledger|
    ensures k in s.sh.hist[l].got && k in s.sh.hist[l].put && k in s.sh.ledger[l].released
    ensures !Early(s.sh.ledger[l].phase)
  {
    hide Reachable, LaneInv, Keys, TransferOk, KeyInv, SerialInv;
    ReachableInv(s0, s);
    InvTrack(s, l);
    InvTrack(s, m);
    KeysInRange(s, m, k);
    SharedKey(s, l, m, k);
  }

  lemma KeysInRange(s: State, l: nat, k: nat)
    requires Inv(s) && l < |s.sh.ledger| && k in Keys(s.sh.ledger[l].xacts)
    ensures k < |s.sh.db|
  {
    InvTrack(s, l);
    PipelineWorker.KeysInRange(s.sh.ledger[l].xacts, |s.sh.db|, k);
  }

  lemma SharedKey(s: State, l: nat, m: nat, k: nat)
    requires Inv(s) && Shares(s, l, m, k) && k < |s.sh.db|
    ensures k in s.sh.ledger[l].released
  {
    hide Inv, Keys;
    InvKey(s, k);
  }

  // ----- durability -----

  /** Server `f` of the cluster, the last being the leader, has the first `n` entries of worker `w`. */
  ghost predicate HasLog(s: State, f: nat, w: nat, n: nat) {
    && w < |s.lanes| && n <= |s.lanes[w].log|
    && (f < |s.lanes[w].links| ==>
          n <= |s.lanes[w].links[f].flog| && s.lanes[w].links[f].flog[..n] == s.lanes[w].log[..n])
  }

  /** A follower that was counted has the entry, and everything before it in the same log. */
  lemma VoterHasLog(s: State, l: nat, f: nat)
    requires Inv(s) && l < |s.sh.ledger| && f in s.sh.ledger[l].voters
    ensures var t := s.sh.ledger[l];
            && f < s.sh.followers && !t.phase.Drawn? && t.worker < |s.lanes| && f < |s.lanes[t.worker].links|
            && HasLog(s, f, t.worker, t.pos + 1) && s.lanes[t.worker].log[t.pos] == Entry(l, t.xacts)
  {
    hide Inv, NotifierInv, Keys;
    var t := s.sh.ledger[l];
    InvPlace(s, l);
    VoterInRange(s, l, f);
    LinksOf(s, t.worker);
    var lane := s.lanes[t.worker];
    InvLink(s, t.worker, f);
    var link := lane.links[f];
    assert VoteInv(t, f, link.counted);
    var n := t.pos + 1;
    assert link.flog[..n] == (link.flog + link.chan)[..n] == lane.log[..n];
  }

  lemma LinksOf(s: State, w: nat)
    requires Inv(s) && w < |s.lanes|
    ensures |s.lanes[w].links| == s.sh.followers
  {
    hide SharedInv, ShapeInv, OwnInv, OrderInv, EntriesInv;
    assert LaneInv(s.sh, w, s.lanes[w]);
  }

  lemma VoterInRange(s: State, l: nat, f: nat)
    requires Inv(s) && l < |s.sh.ledger| && f in s.sh.ledger[l].voters
    ensures f < s.sh.followers
  {
    InvTrack(s, l);
  }

  /** Work is durable before it is applied: an entry that a notifier has begun to apply is in the leader's log, and
      it and every earlier entry of its worker are in the logs of more than half as many followers as there are
      servers. So every majority of servers, with or without the leader, has a follower that holds them. The same
      is true of every earlier entry that shares a key with it, even before it is applied itself. */
  lemma AppliedIsDurable(s0: State, s: State, l: nat, majority: set<nat>)
    requires Reachable(s0, s) && l < |s.sh.ledger| && !Early(s.sh.ledger[l].phase)
    requires (forall f :: f in majority ==> f <= s.sh.followers) && 2 * |majority| > s.sh.followers + 1
    ensures var t := s.sh.ledger[l];
            && t.worker < |s.lanes| && t.pos < |s.lanes[t.worker].log|
            && s.lanes[t.worker].log[t.pos] == Entry(l, t.xacts)
            && |t.voters| > (s.sh.followers + 1) / 2
            && (forall f :: f in t.voters ==> f < s.sh.followers && HasLog(s, f, t.worker, t.pos + 1))
            && (exists f :: f in majority && f < s.sh.followers && HasLog(s, f, t.worker, t.pos + 1))
    ensures forall m: nat, k: nat :: Shares(s, m, l, k) ==> !Early(s.sh.ledger[m].phase)
  {
    hide Reachable, HasLog, LaneInv, SharedInv;
    var t := s.sh.ledger[l];
    ReachableInv(s0, s);
    InvPlace(s, l);
    QuorumOf(s, l);
    forall f | f in t.voters ensures f < s.sh.followers && HasLog(s, f, t.worker, t.pos + 1) {
      VoterHasLog(s, l, f);
    }
    var f := Counting.Overlap(t.voters, majority, s.sh.followers + 1);
    forall m: nat, k: nat | Shares(s, m, l, k) ensures !Early(s.sh.ledger[m].phase) {
      ConflictsFollowLsns(s0, s, m, l, k);
    }
  }

  lemma QuorumOf(s: State, l: nat)
    requires Inv(s) && l < |s.sh.ledger| && !Early(s.sh.ledger[l].phase)
    ensures |s.sh.ledger[l].voters| > (s.sh.followers + 1) / 2
  {
    InvTrack(s, l);
  }

  // ----- locks -----

  /** Who holds key `k`: a worker between its two locks, a worker's buffer, or an entry that has a number. */
  ghost predicate Owns(s: State, o: Owner, k: nat) {
    match o
    case Free => false
    case Acquiring(w) =>
      w < |s.lanes| && Acquires(s.lanes[w].pc) && s.lanes[w].retry != [] && s.lanes[w].retry[0].req.from == k
    case Buffered(w) => w < |s.lanes| && k in Keys(s.lanes[w].buf)
    case Entered(l) => l < |s.sh.ledger| && k in Keys(s.sh.ledger[l].xacts) && k !in s.sh.ledger[l].released
  }

  /** A key is locked exactly when somebody owns it, and nobody shares it: one transfer between its two locks, in a
      buffer, or in an entry that has not unlocked it. */
  lemma LockOwnership(s0: State, s: State, k: nat)
    requires Reachable(s0, s) && k < |s0.sh.db|
    ensures |s.sh.locks| == |s0.sh.db|
    ensures s.sh.locks[k] <==> exists o :: Owns(s, o, k)
    ensures forall o, p :: Owns(s, o, k) && Owns(s, p, k) ==> o == p
  {
    hide Reachable, Inv, Keys, KeyInv;
    ReachableInv(s0, s);
    InvKey(s, k);
    forall o ensures Owns(s, o, k) <==> o == s.sh.owner[k] && o != Free {
      OwnsIff(s, o, k);
    }
    assert KeyInv(s.sh.locks[k], s.sh.owner[k], s.sh.ledger, k);
    LockIff(s.sh.locks[k], s.sh.owner[k], s.sh.ledger, k);
    assert s.sh.owner[k] != Free ==> Owns(s, s.sh.owner[k], k);
  }

  lemma LockIff(lock: bool, owner: Owner, ledger: seq<Track>, k: nat)
    requires KeyInv(lock, owner, ledger, k)
    ensures lock <==> owner != Free
  {
  }

  lemma OwnsIff(s: State, o: Owner, k: nat)
    requires Inv(s) && k < |s.sh.owner| == |s.sh.db|
    ensures Owns(s, o, k) <==> o == s.sh.owner[k] && o != Free
  {
    InvKey(s, k);
    hide Keys, SharedInv, EntriesInv, ShapeInv, OrderInv;
    if (o.Acquiring? || o.Buffered?) && o.w < |s.lanes| {
      assert LaneInv(s.sh, o.w, s.lanes[o.w]);
    }
  }

  /** Where an entry is that still holds locks: drawn and about to be appended, logged and being sent, among the
      stored tasks, or in the hands of the one notifier that loaded it; and no two transfers of it share a key. */
  lemma HeldEntries(s0: State, s: State, l: nat, k: nat)
    requires Reachable(s0, s) && Owns(s, Entered(l), k)
    ensures var t, e := s.sh.ledger[l], Entry(l, s.sh.ledger[l].xacts);
            && t.worker < |s.lanes|
            && var lane := s.lanes[t.worker];
               || lane.pc == Append(e)
               || (lane.pc.Send? && lane.pc.e == e)
               || e in lane.tasks
               || exists f :: 0 <= f < |lane.links| && Applies(lane.links[f].npc, e)
    ensures forall i, j :: 0 <= i < j < |s.sh.ledger[l].xacts| ==> KeysApart(s.sh.ledger[l].xacts, i, j)
  {
    hide Reachable, Inv, Keys, Disjoint;
    ReachableInv(s0, s);
    InvPlace(s, l);
    InvTrack(s, l);
    var xs := s.sh.ledger[l].xacts;
    forall i, j | 0 <= i < j < |xs| ensures KeysApart(xs, i, j) {
      Apart(xs, i, j);
    }
  }

  predicate KeysApart(xs: seq<Xact>, i: nat, j: nat) {
    i < |xs| && j < |xs| && {xs[i].req.from, xs[i].req.to} !! {xs[j].req.from, xs[j].req.to}
  }

  // ----- the pipeline -----

  /** The requests that a run enqueues to worker `w`. */
  function Asked(steps: seq<Step>, w: nat, n: nat): seq<Xact> {
    if steps == [] then []
    else
      var front, last := Asked(steps[..|steps| - 1], w, n), steps[|steps| - 1];
      if last.w == w && last.a.Enqueue? && Proper(last.a.x, n) then front + [last.a.x] else front
  }

  lemma {:induction false} AskedIsEnqueued(s0: State, steps: seq<Step>, w: nat)
    requires Start(s0) && w < |s0.lanes|
    ensures var s := Run(s0, steps);
            |s.lanes| == |s0.lanes| && |s.sh.db| == |s0.sh.db| && s.lanes[w].enq == Asked(steps, w, |s0.sh.db|)
  {
    if steps != [] {
      hide Start;
      AskedIsEnqueued(s0, steps[..|steps| - 1], w);
      EnqueuedByStep(Run(s0, steps[..|steps| - 1]), steps[|steps| - 1], w);
    }
  }

  lemma EnqueuedByStep(s: State, step: Step, w: nat)
    requires w < |s.lanes|
    ensures var s' := Next(s, step);
            && |s'.lanes| == |s.lanes| && |s'.sh.db| == |s.sh.db|
            && s'.lanes[w].enq == if step.w == w && step.a.Enqueue? && Proper(step.a.x, |s.sh.db|)
                                  then s.lanes[w].enq + [step.a.x] else s.lanes[w].enq
  {
    hide Keys, Count, Half, Enter, Swap;
  }

  lemma SwapEqual(x: Xact, y: Xact)
    requires Swap(x) == Swap(y)
    ensures SameTransfer(x, y)
  {
    hide Swap;
  }

  lemma {:induction false} FlatSorted(s: State, w: nat, n: nat)
    requires Inv(s) && w < |s.lanes| && n <= |s.lanes[w].log|
    ensures forall i :: 0 <= i < |Flat(s.lanes[w].log[..n])| ==> Sorted(Flat(s.lanes[w].log[..n])[i], |s.sh.db|)
  {
    hide Inv;
    if n > 0 {
      FlatSorted(s, w, n - 1);
      LoggedEntry(s, w, n - 1);
      SortedEntry(s, s.lanes[w].log[n - 1].lsn);
      assert s.lanes[w].log[..n][..n - 1] == s.lanes[w].log[..n - 1];
    }
  }

  lemma SortedEntry(s: State, l: nat)
    requires Inv(s) && l < |s.sh.ledger|
    ensures forall i :: 0 <= i < |s.sh.ledger[l].xacts| ==> Sorted(s.sh.ledger[l].xacts[i], |s.sh.db|)
  {
    InvTrack(s, l);
  }

  /** Nothing is lost, duplicated, reordered or changed: a worker's log, the group it is about to append, its buffer,
      its refused transfer and its queue, in this order, are what the run enqueued to it, each the same transfer of
      the same client, up to the places of its two keys. In the log the keys are in order. The buffer never
      overflows. */
  lemma PipelineIsExact(s0: State, steps: seq<Step>, w: nat)
    requires Start(s0) && w < |s0.lanes|
    ensures var s := Run(s0, steps);
            && |s.lanes| == |s0.lanes|
            && |Content(s.lanes[w])| == |Asked(steps, w, |s0.sh.db|)|
            && (forall i :: 0 <= i < |Content(s.lanes[w])| ==>
                  SameTransfer(Asked(steps, w, |s0.sh.db|)[i], Content(s.lanes[w])[i]))
            && (forall i :: 0 <= i < |Flat(s.lanes[w].log)| ==>
                  Flat(s.lanes[w].log)[i].req.from < Flat(s.lanes[w].log)[i].req.to)
            && |s.lanes[w].buf| <= s.sh.cap
            && (Tries(s.lanes[w].pc) ==> |s.lanes[w].buf| < s.sh.cap)
            && (forall i :: 0 <= i < |s.lanes[w].log| ==> 0 < |s.lanes[w].log[i].xacts| <= s.sh.cap)
  {
    hide Start, Next, SharedInv, EntriesInv, OwnInv, Content, GroupInv, Normal, Flat, SameTransfer;
    var s := Run(s0, steps);
    RunKeeps(s0, steps);
    AskedIsEnqueued(s0, steps, w);
    assert LaneInv(s.sh, w, s.lanes[w]);
    SameOrder(Content(s.lanes[w]), Asked(steps, w, |s0.sh.db|));
    FlatSorted(s, w, |s.lanes[w].log|);
    assert s.lanes[w].log[..|s.lanes[w].log|] == s.lanes[w].log;
    forall i | 0 <= i < |s.lanes[w].log| ensures 0 < |s.lanes[w].log[i].xacts| <= s.sh.cap {
      LoggedEntry(s, w, i);
      InvTrack(s, s.lanes[w].log[i].lsn);
    }
  }

  lemma SameOrder(xs: seq<Xact>, ys: seq<Xact>)
    requires Normal(xs) == Normal(ys)
    ensures |xs| == |ys| && forall i :: 0 <= i < |xs| ==> SameTransfer(ys[i], xs[i])
  {
    hide Swap, SameTransfer;
    forall i | 0 <= i < |xs| ensures SameTransfer(ys[i], xs[i]) {
      assert Normal(xs)[i] == Swap(xs[i]) && Normal(ys)[i] == Swap(ys[i]);
      SwapEqual(ys[i], xs[i]);
    }
  }

  lemma LoggedEntry(s: State, w: nat, i: nat)
    requires Inv(s) && w < |s.lanes| && i < |s.lanes[w].log|
    ensures Tracked(s.sh.ledger, w, s.lanes[w].log[i])
    ensures s.sh.ledger[s.lanes[w].log[i].lsn].pos == i && !s.sh.ledger[s.lanes[w].log[i].lsn].phase.Drawn?
  {
    hide SharedInv, ShapeInv, OrderInv, OwnInv, PlacesInv, TasksInv, LinkInv;
    assert LaneInv(s.sh, w, s.lanes[w]);
  }

  /** The leader's log for worker `w` is ahead of every follower's. What the follower lacks is on its way: its log and
      the entries sent to it make up the leader's log, but for an entry that the worker is about to send it. */
  lemma FollowersLagBehind(s0: State, s: State, w: nat, f: nat)
    requires Reachable(s0, s) && w < |s.lanes| && f < s.sh.followers
    ensures f < |s.lanes[w].links|
    ensures var flog, log := s.lanes[w].links[f].flog, s.lanes[w].log; |flog| <= |log| && flog == log[..|flog|]
    ensures var lane := s.lanes[w];
            lane.log == lane.links[f].flog + lane.links[f].chan
                        + if lane.pc.Send? && lane.pc.f <= f then [lane.pc.e] else []
  {
    hide Reachable, SharedInv, ShapeInv, OrderInv, OwnInv, PlacesInv, TasksInv, LogInv, VotesInv, NotifierInv;
    ReachableInv(s0, s);
    assert LaneInv(s.sh, w, s.lanes[w]);
    InvLink(s, w, f);
    var flog, chan := s.lanes[w].links[f].flog, s.lanes[w].links[f].chan;
    assert flog == (flog + chan)[..|flog|];
    SendingLast(s, w);
  }

  lemma SendingLast(s: State, w: nat)
    requires Inv(s) && w < |s.lanes|
    ensures var lane := s.lanes[w]; lane.pc.Send? ==> lane.log != [] && lane.pc.e == lane.log[|lane.log| - 1]
  {
    hide SharedInv, ShapeInv, OrderInv, OwnInv, PlacesInv, TasksInv, LinkInv;
    assert LaneInv(s.sh, w, s.lanes[w]);
  }

  /** Every entry in a follower's log is acknowledged once, in order: its acknowledgement has been counted, is on its
      way to the notifier, or is what the receiver sends next. The follower has a vote for exactly those counted. */
  lemma AcknowledgedOnce(s0: State, s: State, w: nat, f: nat)
    requires Reachable(s0, s) && w < |s.lanes| && f < s.sh.followers
    ensures f < |s.lanes[w].links|
    ensures var link := s.lanes[w].links[f];
            var due := if link.rpc.Replying? then link.acks + [link.rpc.lsn] else link.acks;
            && link.counted + |due| == |link.flog|
            && (forall i :: 0 <= i < |due| ==> due[i] == link.flog[link.counted + i].lsn)
            && (forall i :: 0 <= i < |link.flog| ==>
                  link.flog[i].lsn < |s.sh.ledger|
                  && (f in s.sh.ledger[link.flog[i].lsn].voters <==> i < link.counted))
  {
    hide Reachable, SharedInv, ShapeInv, OrderInv, OwnInv, PlacesInv, TasksInv, LogInv, VoteInv, NotifierInv;
    ReachableInv(s0, s);
    assert LaneInv(s.sh, w, s.lanes[w]);
    InvLink(s, w, f);
    FollowersLagBehind(s0, s, w, f);
    var link, log := s.lanes[w].links[f], s.lanes[w].log;
    forall i | 0 <= i < |link.flog|
      ensures link.flog[i].lsn < |s.sh.ledger| && (f in s.sh.ledger[link.flog[i].lsn].voters <==> i < link.counted)
    {
      assert link.flog[i] == log[i];
      LoggedEntry(s, w, i);
      assert VoteInv(s.sh.ledger[log[i].lsn], f, link.counted);
      VoteIs(s.sh.ledger[log[i].lsn], f, link.counted);
    }
  }

  lemma VoteIs(t: Track, f: nat, counted: nat)
    requires VoteInv(t, f, counted)
    ensures f in t.voters <==> !t.phase.Drawn? && t.pos < counted
  {
  }

  ghost predicate InLog(s: State, l: nat, w: nat, i: nat) {
    w < |s.lanes| && i < |s.lanes[w].log| && s.lanes[w].log[i].lsn == l
  }

  ghost predicate IsDrawn(s: State, l: nat, w: nat) {
    w < |s.lanes| && s.lanes[w].pc.Append? && s.lanes[w].pc.e.lsn == l
  }

  ghost predicate InSomeLog(s: State, l: nat) { exists w, i :: InLog(s, l, w, i) }

  ghost predicate IsDrawnBySome(s: State, l: nat) { exists w :: IsDrawn(s, l, w) }

  /** Log sequence numbers: they increase along each log, no two entries of any logs have the same, and with those
      drawn but not yet appended they are the numbers below the counter, without a gap. */
  lemma LsnsAreDense(s0: State, s: State)
    requires Reachable(s0, s)
    ensures forall w, i, j :: 0 <= w < |s.lanes| && 0 <= i < j < |s.lanes[w].log| ==>
              s.lanes[w].log[i].lsn < s.lanes[w].log[j].lsn
    ensures forall l, w, i, v, j :: InLog(s, l, w, i) && InLog(s, l, v, j) ==> w == v && i == j
    ensures forall l, w, v :: IsDrawn(s, l, w) && IsDrawn(s, l, v) ==> w == v
    ensures forall l, w, i, v :: InLog(s, l, w, i) ==> !IsDrawn(s, l, v)
    ensures forall l: nat :: l < s.sh.lsn <==> InSomeLog(s, l) || IsDrawnBySome(s, l)
  {
    hide Reachable, Inv, InLog, IsDrawn;
    ReachableInv(s0, s);
    forall w, i, j | 0 <= w < |s.lanes| && 0 <= i < j < |s.lanes[w].log|
      ensures s.lanes[w].log[i].lsn < s.lanes[w].log[j].lsn
    {
      LogRises(s, w, i, j);
    }
    forall l, w, i | InLog(s, l, w, i) ensures LoggedAt(s, l, w, i) {
      LoggedIs(s, l, w, i);
    }
    forall l, w | IsDrawn(s, l, w) ensures DrawnAt(s, l, w) {
      DrawnIs(s, l, w);
    }
    forall l: nat ensures l < s.sh.lsn <==> InSomeLog(s, l) || IsDrawnBySome(s, l) {
      if l < s.sh.lsn {
        Somewhere(s, l);
      }
    }
  }

  predicate LoggedAt(s: State, l: nat, w: nat, i: nat) {
    l < |s.sh.ledger| && s.sh.ledger[l].worker == w && s.sh.ledger[l].pos == i && !s.sh.ledger[l].phase.Drawn?
  }

  predicate DrawnAt(s: State, l: nat, w: nat) {
    l < |s.sh.ledger| && s.sh.ledger[l].worker == w && s.sh.ledger[l].phase.Drawn?
  }

  lemma LogRises(s: State, w: nat, i: nat, j: nat)
    requires Inv(s) && w < |s.lanes| && i < j < |s.lanes[w].log|
    ensures s.lanes[w].log[i].lsn < s.lanes[w].log[j].lsn
  {
    hide SharedInv, ShapeInv, OrderInv, OwnInv, PlacesInv, TasksInv, LinkInv;
    assert LaneInv(s.sh, w, s.lanes[w]);
  }

  lemma LoggedIs(s: State, l: nat, w: nat, i: nat)
    requires Inv(s) && InLog(s, l, w, i)
    ensures LoggedAt(s, l, w, i)
  {
    hide Inv;
    LoggedEntry(s, w, i);
  }

  lemma DrawnIs(s: State, l: nat, w: nat)
    requires Inv(s) && IsDrawn(s, l, w)
    ensures DrawnAt(s, l, w)
  {
    hide SharedInv, LaneInv;
    assert LaneInv(s.sh, w, s.lanes[w]);
    DrawnOf(s.sh, w, s.lanes[w], s.lanes[w].pc.e);
  }

  lemma Somewhere(s: State, l: nat)
    requires Inv(s) && l < |s.sh.ledger|
    ensures InSomeLog(s, l) || IsDrawnBySome(s, l)
  {
    hide Inv;
    InvPlace(s, l);
    var t := s.sh.ledger[l];
    if t.phase.Drawn? {
      assert IsDrawn(s, l, t.worker);
    } else {
      assert InLog(s, l, t.worker, t.pos);
    }
  }

  // ----- one applier -----

  ghost predicate Applying(s: State, l: nat, w: nat, f: nat) {
    && w < |s.lanes| && f < |s.lanes[w].links|
    && s.lanes[w].links[f].npc.Apply? && s.lanes[w].links[f].npc.e.lsn == l
  }

  /** Notifier `f` of lane `w` works on entry `l`, past the quorum, and has announced the transfers before the one
      it is working on. */
  ghost predicate Rightly(s: State, l: nat, w: nat, f: nat)
    requires l < |s.sh.ledger| && Applying(s, l, w, f)
  {
    var t, e, i := s.sh.ledger[l], s.lanes[w].links[f].npc.e, s.lanes[w].links[f].npc.i;
    && e == Entry(l, t.xacts) && |t.voters| > (s.sh.followers + 1) / 2 && e !in s.lanes[w].tasks
    && i < |e.xacts| && t.commits == e.xacts[..i]
    && t.worker == w && t.phase == Loaded(f)
  }

  /** The vote count of an entry is the number of followers whose acknowledgement has been counted, each once; at
      most one notifier applies it, only past the quorum, and while one does its task is not stored; and the
      transfers announced to clients are, in order and without repetition, a prefix of the entry: all of it once
      the entry is finished, none before a notifier has loaded it. */
  lemma OneApplier(s0: State, s: State, l: nat)
    requires Reachable(s0, s) && l < |s.sh.ledger|
    ensures var t := s.sh.ledger[l];
            && Count(s.sh.votes, l) == |t.voters| <= s.sh.followers
            && t.commits <= t.xacts && (t.phase.Finished? <==> t.commits == t.xacts)
            && (Early(t.phase) ==> t.commits == [])
    ensures forall w: nat, f: nat, v: nat, g: nat :: Applying(s, l, w, f) && Applying(s, l, v, g) ==> w == v && f == g
    ensures forall w: nat, f: nat :: Applying(s, l, w, f) ==> Rightly(s, l, w, f)
  {
    hide Reachable, Inv, Applying;
    ReachableInv(s0, s);
    VotesOf(s, l);
    forall w: nat, f: nat | Applying(s, l, w, f) ensures Rightly(s, l, w, f) {
      ApplierOf(s, l, w, f);
    }
    Announcements(s, l);
  }

  lemma VotesOf(s: State, l: nat)
    requires Inv(s) && l < |s.sh.ledger|
    ensures Count(s.sh.votes, l) == |s.sh.ledger[l].voters| <= s.sh.followers
  {
    InvTrack(s, l);
    hide Inv, GroupInv, Keys;
    Counting.AtMost(s.sh.ledger[l].voters, s.sh.followers);
  }

  lemma ApplierOf(s: State, l: nat, w: nat, f: nat)
    requires Inv(s) && Applying(s, l, w, f)
    ensures l < |s.sh.ledger| && Rightly(s, l, w, f)
  {
    InvLink(s, w, f);
    hide SharedInv, LaneInv, Keys, GroupInv, TransferOk;
    InvPlace(s, l);
    QuorumOf(s, l);
  }

  lemma Announcements(s: State, l: nat)
    requires Inv(s) && l < |s.sh.ledger|
    ensures var t := s.sh.ledger[l];
            && t.commits <= t.xacts && (t.phase.Finished? <==> t.commits == t.xacts)
            && (Early(t.phase) ==> t.commits == [])
  {
    InvTrack(s, l);
    InvPlace(s, l);
    hide SharedInv, LaneInv, GroupInv, TransferOk, Half;
    var t := s.sh.ledger[l];
    if t.phase.Loaded? {
      ApplierOf(s, l, t.worker, t.phase.f);
    }
  }
}
