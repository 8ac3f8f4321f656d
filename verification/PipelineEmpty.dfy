/// Everything that was asked for gets done: unless a task has been lost, every state of every run leads, without new
/// requests, to one in which every queue is empty, every entry is finished and no lock is taken.

module PipelineEmpty {
  import opened Pipeline
  import opened PipelineInvariant
  import opened PipelineRuns
  import opened PipelineTheorems
  import opened PipelineDrain

  /** Nothing is under way: workers idle, links quiet, no lock taken. Requests may still be waiting. */
  ghost predicate Resting(s: State) {
    Sound(s) && AllIdle(s) && QuietLanes(s, |s.lanes|) && Unlocked(s)
  }

  /** How many requests wait in a lane. */
  function Waiting(lane: Lane): nat {
    |lane.queue| + |lane.retry|
  }

  /** From any state that has lost no task the machine comes to rest. */
  lemma ComeToRest(s: State) returns (s': State)
    requires Sound(s)
    ensures Drains(s, s') && Resting(s') && |s'.lanes| == |s.lanes|
  {
    hide Inv, NoneLost, Unlocked, Drains, Idle, QuietTo;
    var t := SettleWorkers(s, |s.lanes|);
    IdleAll(t);
    s' := SettleLanes(t, |t.lanes|);
    DrainsTrans(s, t, s');
    InvShape(s');
    QuietUnlocked(s');
  }

  // ----- serving one request -----

  /** The next request of `lane` has gone; the others wait in `lane'` as before. */
  predicate Served(lane: Lane, lane': Lane) {
    && lane'.retry == []
    && if lane.retry != [] then lane'.queue == lane.queue else lane.queue != [] && lane'.queue == lane.queue[1..]
  }

  /** With no lock taken, an idle worker gets both locks of the next transfer. */
  lemma ServeActs(sh: Shared, w: nat, lane: Lane)
    requires ShapeInv(|sh.db|, sh.cap, lane) && |sh.locks| == |sh.owner| == |sh.db|
    requires forall k :: 0 <= k < |sh.locks| ==> !sh.locks[k]
    requires Idle(lane) && Waiting(lane) > 0
    ensures WorkerEnabled(sh, lane)
    ensures var p := StepWorker(sh, w, lane, true);
            && WorkerEnabled(p.sh, p.lane)
            && var q := StepWorker(p.sh, w, p.lane, true);
               && WorkerEnabled(q.sh, q.lane)
               && var r := StepWorker(q.sh, w, q.lane, true);
                  r.lane.pc.Flush? && Served(lane, r.lane)
  {
    hide GroupInv;
    var x := if lane.retry != [] then lane.retry[0] else lane.queue[0];
    assert Proper(x, |sh.db|);
  }

  lemma StepIs(s: State, w: nat)
    requires w < |s.lanes| && WorkerEnabled(s.sh, s.lanes[w])
    ensures var p, s' := StepWorker(s.sh, w, s.lanes[w], true), Next(s, Step(w, Worker(true)));
            s'.sh == p.sh && s'.lanes == s.lanes[w := p.lane]
  {
    hide StepWorker, WorkerEnabled;
  }

  lemma OneStep(s: State, w: nat) returns (s': State)
    requires Sound(s) && w < |s.lanes| && WorkerEnabled(s.sh, s.lanes[w])
    ensures Drains(s, s') && Sound(s')
    ensures s'.sh == StepWorker(s.sh, w, s.lanes[w], true).sh
    ensures s'.lanes == s.lanes[w := StepWorker(s.sh, w, s.lanes[w], true).lane]
  {
    hide Inv, NoneLost, StepWorker, WorkerEnabled, Next, Drains;
    var step := Step(w, Worker(true));
    s' := Next(s, step);
    StepIs(s, w);
    DrainsStep(s, step);
    NextKeeps(s, step);
    NextFrame(s, step);
    NextFate(s, step);
  }

  /** One request of a resting machine is served to the end. */
  lemma ServeOne(s: State, w: nat) returns (s': State)
    requires Resting(s) && w < |s.lanes| && Waiting(s.lanes[w]) > 0
    ensures Drains(s, s') && Resting(s') && |s'.lanes| == |s.lanes|
    ensures Served(s.lanes[w], s'.lanes[w])
    ensures forall v :: 0 <= v < |s.lanes| && v != w ==> SameWaiting(s.lanes[v], s'.lanes[v])
  {
    hide Inv, NoneLost, StepWorker, WorkerEnabled, Drains, QuietTo, ShapeInv;
    assert Idle(s.lanes[w]);
    LaneShapeOf(s, w);
    ServeActs(s.sh, w, s.lanes[w]);
    var a := OneStep(s, w);
    var b := OneStep(a, w);
    var c := OneStep(b, w);
    DrainsTrans(s, a, b);
    DrainsTrans(s, b, c);
    var d := SettleWorker(c, w);
    DrainsTrans(s, c, d);
    assert AllIdle(d) by {
      forall v | 0 <= v < |d.lanes| ensures Idle(d.lanes[v]) {
        if v != w {
          assert d.lanes[v] == s.lanes[v];
        }
      }
    }
    s' := SettleLanes(d, |d.lanes|);
    DrainsTrans(s, d, s');
    InvShape(s');
    QuietUnlocked(s');
  }

  lemma LaneShapeOf(s: State, w: nat)
    requires Inv(s) && w < |s.lanes|
    ensures ShapeInv(|s.sh.db|, s.sh.cap, s.lanes[w]) && |s.sh.locks| == |s.sh.owner| == |s.sh.db|
  {
    InvShape(s);
    hide SharedInv, ShapeInv, OwnInv, OrderInv, EntriesInv;
    assert LaneInv(s.sh, w, s.lanes[w]);
  }

  // ----- serving all -----

  lemma OneRetry(s: State, w: nat)
    requires Resting(s) && w < |s.lanes|
    ensures |s.lanes[w].retry| <= 1
  {
    hide Inv, NoneLost, Unlocked, QuietLanes, AllIdle, GroupInv;
    LaneShapeOf(s, w);
  }

  lemma {:induction false} ServeLane(s: State, w: nat) returns (s': State)
    requires Resting(s) && w < |s.lanes|
    ensures Drains(s, s') && Resting(s') && |s'.lanes| == |s.lanes| && Waiting(s'.lanes[w]) == 0
    ensures forall v :: 0 <= v < |s.lanes| && v != w ==> SameWaiting(s.lanes[v], s'.lanes[v])
    decreases Waiting(s.lanes[w])
  {
    hide Resting, Drains, Next;
    if Waiting(s.lanes[w]) == 0 {
      DrainsStep(s, Step(0, Worker(true)));
      s' := s;
    } else {
      OneRetry(s, w);
      var m := ServeOne(s, w);
      s' := ServeLane(m, w);
      DrainsTrans(s, m, s');
    }
  }

  lemma {:induction false} ServeLanes(s: State, n: nat) returns (s': State)
    requires Resting(s) && n <= |s.lanes|
    ensures Drains(s, s') && Resting(s') && |s'.lanes| == |s.lanes|
    ensures forall w :: 0 <= w < n ==> Waiting(s'.lanes[w]) == 0
  {
    hide Resting, Drains, Next;
    if n == 0 {
      DrainsStep(s, Step(0, Worker(true)));
      s' := s;
    } else {
      var m := ServeLanes(s, n - 1);
      s' := ServeLane(m, n - 1);
      DrainsTrans(s, m, s');
    }
  }

  /** Everything asked for is done: no request waits, no transfer is buffered, every entry is applied and announced,
      and no lock is taken. */
  ghost predicate Emptied(s: State) {
    && (forall w :: 0 <= w < |s.lanes| ==> Waiting(s.lanes[w]) == 0 && s.lanes[w].buf == [])
    && (forall l :: 0 <= l < |s.sh.ledger| ==> s.sh.ledger[l].phase.Finished?)
    && Unlocked(s)
  }

  lemma RestIsEmpty(s: State)
    requires Resting(s) && forall w :: 0 <= w < |s.lanes| ==> Waiting(s.lanes[w]) == 0
    ensures Emptied(s)
  {
    hide Inv, NoneLost, Unlocked, QuietTo, QuietLanes;
    forall w | 0 <= w < |s.lanes| ensures s.lanes[w].buf == [] {
      assert Idle(s.lanes[w]);
    }
    forall l | 0 <= l < |s.sh.ledger| ensures s.sh.ledger[l].phase.Finished? {
      QuietFinished(s, l);
    }
  }

  /** In a cluster of at least three servers, from any state of any run, a finite run without new requests does
      everything that was asked for, exactly when no task is lost. */
  lemma EmptiesIff(s0: State, s: State)
    requires Reachable(s0, s) && s0.sh.followers >= 2
    ensures (exists s' :: Drains(s, s') && Emptied(s')) <==> NoneLost(s)
  {
    hide Reachable, Inv, NoneLost, Unlocked, Drains, Resting;
    ReachableInv(s0, s);
    if NoneLost(s) {
      var t := ComeToRest(s);
      var u := ServeLanes(t, |t.lanes|);
      DrainsTrans(s, t, u);
      RestIsEmpty(u);
    }
    forall s' | Drains(s, s') && Emptied(s') ensures NoneLost(s) {
      UnlockedNoneLost(s, s');
    }
  }

  /** ... and so in every run that stores its tasks in time. */
  lemma EverythingIsDone(s0: State, steps: seq<Step>)
    requires Start(s0) && s0.sh.followers >= 2 && AllStoredInTime(s0, steps)
    ensures exists s' :: Drains(Run(s0, steps), s') && Emptied(s')
  {
    hide Start, AllStoredInTime, NoneLost, Drains, Emptied, Run;
    InTimeAlong(s0, steps);
    assert Reachable(s0, Run(s0, steps));
    EmptiesIff(s0, Run(s0, steps));
  }
}
