/// Every run of the logging pipeline keeps the invariant.

module PipelineRuns {
  import opened Pipeline
  import opened PipelineInvariant
  import opened PipelineWorker
  import opened PipelineLogging
  import opened PipelineNotifier
  import opened PipelineCommit

  lemma WorkerKeeps(sh: Shared, w: nat, lanes: nat, lane: Lane, timeout: bool)
    requires SharedInv(sh, lanes) && LaneInv(sh, w, lane) && WorkerEnabled(sh, lane) && w < lanes
    ensures Keeps(sh, w, lanes, StepWorker(sh, w, lane, timeout))
  {
    hide SharedInv, LaneInv, Keeps, StepFetch, StepLockFrom, StepLockTo, StepRollback, StepFlush, StepDraw,
      StepAppend, StepSend;
    match lane.pc
    case Fetch => FetchKeeps(sh, w, lanes, lane);
    case LockFrom => LockFromKeeps(sh, w, lanes, lane);
    case LockTo => LockToKeeps(sh, w, lanes, lane);
    case Rollback => RollbackKeeps(sh, w, lanes, lane);
    case Flush => FlushKeeps(sh, w, lanes, lane, timeout);
    case Draw => DrawKeeps(sh, w, lanes, lane);
    case Append(e) => AppendKeeps(sh, w, lanes, lane, e);
    case Send(e, f) => SendKeeps(sh, w, lanes, lane, e, f);
  }

  lemma NotifierKeeps(sh: Shared, w: nat, lanes: nat, lane: Lane, f: nat)
    requires SharedInv(sh, lanes) && LaneInv(sh, w, lane) && NotifierEnabled(sh, lane, f)
    ensures Keeps(sh, w, lanes, StepNotifier(sh, lane, f))
  {
    hide SharedInv, LaneInv, Keeps, StepCount, StepLoad, StepApply;
    match lane.links[f].npc
    case Waiting => CountKeeps(sh, w, lanes, lane, f);
    case Load(l) => LoadKeeps(sh, w, lanes, lane, f, l);
    case Apply(_, _, _) => ApplyKeeps(sh, w, lanes, lane, f);
  }

  lemma ActKeeps(sh: Shared, w: nat, lanes: nat, lane: Lane, a: Action)
    requires SharedInv(sh, lanes) && LaneInv(sh, w, lane) && Enabled(sh, lane, a) && w < lanes
    ensures Keeps(sh, w, lanes, Act(sh, w, lane, a))
  {
    hide SharedInv, LaneInv, Keeps, StepEnqueue, StepWorker, StepReceiver, StepNotifier;
    match a
    case Enqueue(x) => EnqueueKeeps(sh, w, lanes, lane, x);
    case Worker(timeout) => WorkerKeeps(sh, w, lanes, lane, timeout);
    case Receiver(f) => ReceiverKeeps(sh, w, lanes, lane, f);
    case Notifier(f) => NotifierKeeps(sh, w, lanes, lane, f);
  }

  lemma NextKeeps(s: State, step: Step)
    requires Inv(s)
    ensures Inv(Next(s, step))
  {
    hide SharedInv, LaneInv, Rely, Enabled, Act;
    var w, a := step.w, step.a;
    if w < |s.lanes| && Enabled(s.sh, s.lanes[w], a) {
      var p, s' := Act(s.sh, w, s.lanes[w], a), Next(s, step);
      ActKeeps(s.sh, w, |s.lanes|, s.lanes[w], a);
      forall v | 0 <= v < |s'.lanes| ensures LaneInv(s'.sh, v, s'.lanes[v]) {
        if v != w {
          RelyKeeps(s.sh, s'.sh, v, s.lanes[v]);
        }
      }
    }
  }

  lemma StartLane(s: State, w: nat)
    requires Start(s) && w < |s.lanes|
    ensures LaneInv(s.sh, w, s.lanes[w])
  {
    NoKeys(|s.sh.db|);
    hide Keys, Disjoint, Progress;
    var lane := s.lanes[w];
    assert Content(lane) == [];
    forall f | 0 <= f < |lane.links|
      ensures LinkInv(s.sh.ledger, s.sh.hist, s.sh.followers, w, f, lane.log,
                      Sent(lane.pc, lane.log, f), lane.links[f])
    {
      assert lane.links[f] == NEW_LINK;
    }
  }

  lemma StartInv(s: State)
    requires Start(s)
    ensures Inv(s)
  {
    hide Keys, LaneInv;
    forall w | 0 <= w < |s.lanes| ensures LaneInv(s.sh, w, s.lanes[w]) {
      StartLane(s, w);
    }
  }

  lemma NextFrame(s: State, step: Step)
    ensures Next(s, step).sh.init == s.sh.init && |Next(s, step).lanes| == |s.lanes|
    ensures Next(s, step).sh.followers == s.sh.followers && Next(s, step).sh.cap == s.sh.cap
  {
    hide Keys;
  }

  lemma {:induction false} RunKeeps(s: State, steps: seq<Step>)
    requires Start(s)
    ensures Inv(Run(s, steps))
    ensures Run(s, steps).sh.init == s.sh.init && |Run(s, steps).lanes| == |s.lanes|
    ensures Run(s, steps).sh.followers == s.sh.followers && Run(s, steps).sh.cap == s.sh.cap
  {
    hide Inv, Next;
    if steps == [] {
      StartInv(s);
    } else {
      RunKeeps(s, steps[..|steps| - 1]);
      NextKeeps(Run(s, steps[..|steps| - 1]), steps[|steps| - 1]);
      NextFrame(Run(s, steps[..|steps| - 1]), steps[|steps| - 1]);
    }
  }

  /** In every run, the next access of every thread has its indices in range: a worker is never stuck, and a
      notifier waits only for an acknowledgement. */
  lemma NeverStuck(s: State, w: nat)
    requires Inv(s) && w < |s.lanes|
    ensures WorkerEnabled(s.sh, s.lanes[w])
    ensures forall f :: 0 <= f < |s.lanes[w].links| ==>
              || NotifierEnabled(s.sh, s.lanes[w], f)
              || (s.lanes[w].links[f].npc.Waiting? && s.lanes[w].links[f].acks == [])
  {
    var lane := s.lanes[w];
    WorkerNeverStuck(s.sh, w, |s.lanes|, lane);
    forall f | 0 <= f < |lane.links|
      ensures NotifierEnabled(s.sh, lane, f) || (lane.links[f].npc.Waiting? && lane.links[f].acks == [])
    {
      NotifierNeverStuck(s.sh, w, |s.lanes|, lane, f);
    }
  }

  lemma WorkerNeverStuck(sh: Shared, w: nat, lanes: nat, lane: Lane)
    requires SharedInv(sh, lanes) && LaneInv(sh, w, lane)
    ensures WorkerEnabled(sh, lane)
  {
    SharedShapeOf(sh, lanes);
    hide Keys, GroupInv, PlacesInv, LinkInv, TasksInv, OrderInv, OwnInv, SharedInv;
  }

  lemma NotifierNeverStuck(sh: Shared, w: nat, lanes: nat, lane: Lane, f: nat)
    requires SharedInv(sh, lanes) && LaneInv(sh, w, lane) && f < |lane.links|
    ensures NotifierEnabled(sh, lane, f) || (lane.links[f].npc.Waiting? && lane.links[f].acks == [])
  {
    if lane.links[f].npc.Apply? {
      ApplyingOf(sh, w, lanes, lane, f);
    } else if lane.links[f].npc.Waiting? && lane.links[f].acks != [] {
      NextAck(sh.ledger, sh.hist, sh.followers, w, lane.pc, lane.log, lane.tasks, lane.links, f);
    } else {
      NotifierOf(sh, w, lane, f);
    }
    hide SharedInv, LaneInv, Keys, Progress;
  }
}
