/// The steps of producers, workers and log receivers keep the invariant.

module PipelineWorker {
  import opened Pipeline
  import opened PipelineInvariant
  import Serial

  // ----- sequences of transfers -----

  lemma NormalAppend(a: seq<Xact>, b: seq<Xact>)
    ensures Normal(a + b) == Normal(a) + Normal(b)
  {
  }

  lemma SwapTwice(x: Xact)
    ensures Swap(Swap(x)) == Swap(x)
  {
  }

  lemma KeysAppend(xs: seq<Xact>, x: Xact)
    ensures Keys(xs + [x]) == Keys(xs) + {x.req.from, x.req.to}
  {
    assert (xs + [x])[..|xs|] == xs;
  }

  lemma GroupAppend(xs: seq<Xact>, x: Xact, n: nat)
    requires GroupInv(xs, n) && Sorted(x, n) && x.req.from !in Keys(xs) && x.req.to !in Keys(xs)
    ensures GroupInv(xs + [x], n)
  {
    DisjointAppend(xs, x);
    hide Disjoint, Keys;
  }

  lemma DisjointAppend(xs: seq<Xact>, x: Xact)
    requires Disjoint(xs) && x.req.from != x.req.to && x.req.from !in Keys(xs) && x.req.to !in Keys(xs)
    ensures Disjoint(xs + [x])
  {
    hide Keys;
    var ys := xs + [x];
    assert ys[..|ys| - 1] == xs && ys[|ys| - 1] == x;
  }

  lemma {:induction false} KeysInRange(xs: seq<Xact>, n: nat, k: nat)
    requires (forall i :: 0 <= i < |xs| ==> Sorted(xs[i], n)) && k in Keys(xs)
    ensures k < n
  {
    var m := |xs| - 1;
    if k in Keys(xs[..m]) {
      KeysInRange(xs[..m], n, k);
    } else {
      assert Sorted(xs[m], n);
    }
  }

  // ----- steps that touch no entry -----

  predicate Quiet(pc: WorkerPc) { !pc.Append? && !pc.Send? }

  /** A worker that moves between two places outside `loggingWork` and the sends does not concern the entries. */
  lemma QuietMove(ledger: seq<Track>, hist: seq<Serial.Txn<int>>, followers: nat, w: nat,
                  pc: WorkerPc, pc': WorkerPc, log: seq<Entry>, tasks: seq<Entry>, links: seq<Link>)
    requires EntriesInv(ledger, hist, followers, w, pc, log, tasks, links) && Quiet(pc) && Quiet(pc')
    ensures EntriesInv(ledger, hist, followers, w, pc', log, tasks, links)
  {
    hide LinkInv, TasksInv, Keys;
    forall f | 0 <= f < |links| ensures LinkInv(ledger, hist, followers, w, f, log, Sent(pc', log, f), links[f]) {
      assert Sent(pc', log, f) == Sent(pc, log, f);
    }
  }

  /** A step that changes neither the shared state nor anything but the worker's place and what it holds. */
  lemma OwnKeeps(sh: Shared, w: nat, lanes: nat, lane: Lane, lane': Lane)
    requires SharedInv(sh, lanes) && LaneInv(sh, w, lane)
    requires lane'.log == lane.log && lane'.tasks == lane.tasks && lane'.links == lane.links && lane'.buf == lane.buf
    requires (Quiet(lane.pc) && Quiet(lane'.pc)) || lane'.pc == lane.pc
    requires ShapeInv(|sh.db|, sh.cap, lane') && OrderInv(lane')
             && OwnInv(sh.owner, w, lane'.pc, lane'.retry, lane'.buf)
    ensures Keeps(sh, w, lanes, Pair(sh, lane'))
  {
    hide SharedInv, ShapeInv, OrderInv, OwnInv, EntriesInv;
    assert SharedShape(sh) by { SharedShapeOf(sh, lanes); }
    if lane'.pc != lane.pc {
      QuietMove(sh.ledger, sh.hist, sh.followers, w, lane.pc, lane'.pc, lane.log, lane.tasks, lane.links);
    }
  }

  lemma SharedShapeOf(sh: Shared, lanes: nat)
    requires SharedInv(sh, lanes)
    ensures SharedShape(sh)
  {
  }

  lemma EnqueueKeeps(sh: Shared, w: nat, lanes: nat, lane: Lane, x: Xact)
    requires SharedInv(sh, lanes) && LaneInv(sh, w, lane) && Proper(x, |sh.db|)
    ensures Keeps(sh, w, lanes, Pair(sh, StepEnqueue(lane, x)))
  {
    hide SharedInv, EntriesInv, OwnInv, Disjoint, Keys, Keeps;
    var lane' := StepEnqueue(lane, x);
    assert Content(lane') == Content(lane) + [x];
    NormalAppend(Content(lane), [x]);
    NormalAppend(lane.enq, [x]);
    OwnKeeps(sh, w, lanes, lane, lane');
  }

  lemma FetchKeeps(sh: Shared, w: nat, lanes: nat, lane: Lane)
    requires SharedInv(sh, lanes) && LaneInv(sh, w, lane) && lane.pc.Fetch?
    ensures Keeps(sh, w, lanes, Pair(sh, StepFetch(lane)))
  {
    hide SharedInv, EntriesInv, ShapeInv, OwnInv, OrderInv, Keeps;
    var lane' := StepFetch(lane);
    FetchShape(|sh.db|, sh.cap, lane);
    FetchOwn(sh.owner, w, lane);
    FetchOrder(|sh.db|, sh.cap, lane);
    OwnKeeps(sh, w, lanes, lane, lane');
  }

  lemma FetchShape(n: nat, cap: nat, lane: Lane)
    requires ShapeInv(n, cap, lane) && lane.pc.Fetch?
    ensures ShapeInv(n, cap, StepFetch(lane))
  {
    hide GroupInv;
  }

  lemma FetchOwn(owner: seq<Owner>, w: nat, lane: Lane)
    requires OwnInv(owner, w, lane.pc, lane.retry, lane.buf) && lane.pc.Fetch?
    ensures var lane' := StepFetch(lane); OwnInv(owner, w, lane'.pc, lane'.retry, lane'.buf)
  {
    hide Keys, Swap;
  }

  /** Putting the keys of one transfer in order changes nothing but their order. */
  lemma NormalSwap(front: seq<Xact>, x: Xact, tail: seq<Xact>)
    ensures Normal(front + [Swap(x)] + tail) == Normal(front + [x] + tail)
  {
    SwapTwice(x);
    hide Swap;
    NormalAppend(front + [Swap(x)], tail);
    NormalAppend(front, [Swap(x)]);
    NormalAppend(front + [x], tail);
    NormalAppend(front, [x]);
    assert Normal([Swap(x)]) == [Swap(Swap(x))] == [Swap(x)] == Normal([x]);
  }

  lemma ContentOf(lane: Lane)
    requires lane.pc.Fetch? || lane.pc.LockFrom? || lane.pc.Flush?
    ensures Content(lane) == Flat(lane.log) + lane.buf + lane.retry + lane.queue
  {
    hide Flat;
    assert Flat(lane.log) + [] == Flat(lane.log);
  }

  lemma FrontOf(front: seq<Xact>, queue: seq<Xact>)
    requires queue != []
    ensures front + [] + queue == front + [queue[0]] + queue[1..]
  {
  }

  lemma FetchOrder(n: nat, cap: nat, lane: Lane)
    requires ShapeInv(n, cap, lane) && OrderInv(lane) && lane.pc.Fetch?
    ensures OrderInv(StepFetch(lane))
  {
    hide Swap, Normal, Flat, GroupInv, Content;
    var lane', front := StepFetch(lane), Flat(lane.log) + lane.buf;
    ContentOf(lane);
    ContentOf(lane');
    if lane.retry != [] {
      assert lane.retry == [lane.retry[0]];
      NormalSwap(front, lane.retry[0], lane.queue);
    } else if lane.queue != [] {
      FrontOf(front, lane.queue);
      NormalSwap(front, lane.queue[0], lane.queue[1..]);
    }
  }

  lemma FlushKeeps(sh: Shared, w: nat, lanes: nat, lane: Lane, timeout: bool)
    requires SharedInv(sh, lanes) && LaneInv(sh, w, lane) && lane.pc.Flush?
    ensures Keeps(sh, w, lanes, Pair(sh, StepFlush(sh, lane, timeout)))
  {
    SharedShapeOf(sh, lanes);
    hide SharedInv, EntriesInv, Disjoint, Keys, Keeps;
    var lane' := StepFlush(sh, lane, timeout);
    assert Content(lane') == Content(lane);
    OwnKeeps(sh, w, lanes, lane, lane');
  }

  // ----- locks -----

  /** Locks passing between the hands of one worker concern no entry and no other lane. */
  lemma LocksKeep(sh: Shared, w: nat, lanes: nat, lane: Lane, sh': Shared, lane': Lane)
    requires SharedInv(sh, lanes) && LaneInv(sh, w, lane) && w < lanes
    requires sh' == sh.(locks := sh'.locks, owner := sh'.owner)
    requires |sh'.locks| == |sh'.owner| == |sh.owner|
    requires forall k :: 0 <= k < |sh.owner| ==> HandOver(w, sh.locks[k], sh.owner[k], sh'.locks[k], sh'.owner[k])
    requires lane'.log == lane.log && lane'.tasks == lane.tasks && lane'.links == lane.links
    requires Quiet(lane.pc) && Quiet(lane'.pc)
    requires ShapeInv(|sh.db|, sh.cap, lane') && OrderInv(lane')
             && OwnInv(sh'.owner, w, lane'.pc, lane'.retry, lane'.buf)
    ensures Keeps(sh, w, lanes, Pair(sh', lane'))
  {
    hide TrackInv, SerialInv, ShapeInv, OrderInv, OwnInv, EntriesInv, Keys;
    QuietMove(sh.ledger, sh.hist, sh.followers, w, lane.pc, lane'.pc, lane.log, lane.tasks, lane.links);
    assert SerialInv(sh') by { SameSerial(sh, sh'); }
    forall k | 0 <= k < |sh'.owner| && (sh'.owner[k].Acquiring? || sh'.owner[k].Buffered?)
      ensures sh'.owner[k].w < lanes
    {
      assert HandOver(w, sh.locks[k], sh.owner[k], sh'.locks[k], sh'.owner[k]);
    }
    forall k | 0 <= k < |sh'.db| ensures KeyInv(sh'.locks[k], sh'.owner[k], sh'.ledger, k) {
      assert HandOver(w, sh.locks[k], sh.owner[k], sh'.locks[k], sh'.owner[k]);
      assert KeyInv(sh.locks[k], sh.owner[k], sh.ledger, k);
    }
    forall v: nat | v != w ensures Rely(sh, sh', v) {
      forall k | 0 <= k < |sh.owner|
        ensures (sh'.owner[k] == Buffered(v) <==> sh.owner[k] == Buffered(v))
             && (sh'.owner[k] == Acquiring(v) <==> sh.owner[k] == Acquiring(v))
      {
        assert HandOver(w, sh.locks[k], sh.owner[k], sh'.locks[k], sh'.owner[k]);
      }
    }
  }

  predicate Hand(w: nat, owner: Owner) { owner == Free || owner == Acquiring(w) || owner == Buffered(w) }

  predicate HandOver(w: nat, lock: bool, owner: Owner, lock': bool, owner': Owner) {
    (lock' == lock && owner' == owner) || (Hand(w, owner) && Hand(w, owner') && (lock' <==> owner' != Free))
  }

  lemma SameSerial(sh: Shared, sh': Shared)
    requires SerialInv(sh) && sh'.db == sh.db && sh'.init == sh.init && sh'.hist == sh.hist
    ensures SerialInv(sh')
  {
  }

  lemma KeyOf(sh: Shared, lanes: nat, k: nat)
    requires SharedInv(sh, lanes) && k < |sh.db|
    ensures |sh.locks| == |sh.owner| == |sh.db|
    ensures KeyInv(sh.locks[k], sh.owner[k], sh.ledger, k)
  {
    hide KeyInv, TrackInv, SerialInv;
  }

  lemma LockFromKeeps(sh: Shared, w: nat, lanes: nat, lane: Lane)
    requires SharedInv(sh, lanes) && LaneInv(sh, w, lane) && lane.pc.LockFrom? && WorkerEnabled(sh, lane) && w < lanes
    ensures Keeps(sh, w, lanes, StepLockFrom(sh, w, lane))
  {
    hide SharedInv, EntriesInv, Disjoint, Keys, Keeps;
    var p, k := StepLockFrom(sh, w, lane), lane.retry[0].req.from;
    KeyOf(sh, lanes, k);
    assert Content(p.lane) == Content(lane);
    if sh.locks[k] {
      OwnKeeps(sh, w, lanes, lane, p.lane);
    } else {
      LocksKeep(sh, w, lanes, lane, p.sh, p.lane);
    }
  }

  lemma LockToKeeps(sh: Shared, w: nat, lanes: nat, lane: Lane)
    requires SharedInv(sh, lanes) && LaneInv(sh, w, lane) && lane.pc.LockTo? && WorkerEnabled(sh, lane) && w < lanes
    ensures Keeps(sh, w, lanes, StepLockTo(sh, w, lane))
  {
    hide SharedInv, EntriesInv, Disjoint, Keys, Keeps;
    var p, x := StepLockTo(sh, w, lane), lane.retry[0];
    assert lane.retry == [x];
    if sh.locks[x.req.to] {
      assert Content(p.lane) == Content(lane);
      OwnKeeps(sh, w, lanes, lane, p.lane);
    } else {
      LockedBoth(sh, w, lanes, lane);
    }
  }

  lemma LockedBoth(sh: Shared, w: nat, lanes: nat, lane: Lane)
    requires SharedInv(sh, lanes) && LaneInv(sh, w, lane) && lane.pc.LockTo? && WorkerEnabled(sh, lane) && w < lanes
    requires !sh.locks[lane.retry[0].req.to]
    ensures Keeps(sh, w, lanes, StepLockTo(sh, w, lane))
  {
    hide SharedInv, EntriesInv, Disjoint, Keys, Keeps;
    var p, x := StepLockTo(sh, w, lane), lane.retry[0];
    KeyOf(sh, lanes, x.req.to);
    KeyOf(sh, lanes, x.req.from);
    assert sh.owner[x.req.from] == Acquiring(w);
    assert lane.retry == [x];
    assert Content(p.lane) == Content(lane);
    KeysAppend(lane.buf, x);
    GroupAppend(lane.buf, x, |sh.db|);
    LocksKeep(sh, w, lanes, lane, p.sh, p.lane);
  }

  lemma RollbackKeeps(sh: Shared, w: nat, lanes: nat, lane: Lane)
    requires SharedInv(sh, lanes) && LaneInv(sh, w, lane) && lane.pc.Rollback? && WorkerEnabled(sh, lane) && w < lanes
    ensures Keeps(sh, w, lanes, StepRollback(sh, lane))
  {
    hide SharedInv, EntriesInv, Disjoint, Keys, Keeps;
    var p, k := StepRollback(sh, lane), lane.retry[0].req.from;
    KeyOf(sh, lanes, k);
    assert sh.owner[k] == Acquiring(w);
    assert Content(p.lane) == Content(lane);
    LocksKeep(sh, w, lanes, lane, p.sh, p.lane);
  }
}
