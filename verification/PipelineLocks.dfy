/// When a worker gets a lock, and when it is refused one.

module PipelineLocks {
  import opened Pipeline
  import opened PipelineInvariant
  import opened PipelineRuns
  import opened PipelineTheorems

  ghost predicate Owned(s: State, k: nat) {
    exists o :: Owns(s, o, k)
  }

  /** Key `k` belongs to something else than the transfer that worker `w` is locking. */
  ghost predicate OwnedElsewhere(s: State, w: nat, k: nat) {
    exists o :: Owns(s, o, k) && o != Acquiring(w)
  }

  lemma TriesOne(s: State, w: nat)
    requires Inv(s) && w < |s.lanes| && Tries(s.lanes[w].pc)
    ensures |s.lanes[w].retry| == 1 && |s.sh.locks| == |s.sh.owner| == |s.sh.db|
    ensures s.lanes[w].retry[0].req.from < s.lanes[w].retry[0].req.to < |s.sh.db|
  {
    hide KeysInv, TracksInv, SerialInv, OwnInv, OrderInv, EntriesInv, GroupInv;
    assert LaneInv(s.sh, w, s.lanes[w]);
  }

  /** A lock is taken exactly when somebody owns it. */
  lemma LockedIffOwned(s0: State, s: State, k: nat)
    requires Reachable(s0, s) && k < |s0.sh.db|
    ensures k < |s.sh.locks| && (s.sh.locks[k] <==> Owned(s, k))
  {
    hide Reachable, Owns;
    LockOwnership(s0, s, k);
  }

  /** The lower key is locked if and only if nobody owns it. A refused transfer waits, and nothing else has happened. */
  lemma FirstLockIff(s0: State, s: State, w: nat, timeout: bool)
    requires Reachable(s0, s) && w < |s.lanes| && s.lanes[w].pc.LockFrom?
    ensures s.lanes[w].retry != []
    ensures var s', k, lane := Next(s, Step(w, Worker(timeout))), s.lanes[w].retry[0].req.from, s.lanes[w];
            && |s'.lanes| == |s.lanes|
            && (Owned(s, k) <==> OwnedElsewhere(s, w, k))
            && if Owned(s, k) then s'.sh == s.sh && s'.lanes[w] == lane.(pc := Flush)
               else Owns(s', Acquiring(w), k) && s'.lanes[w] == lane.(pc := LockTo)
  {
    hide Reachable, Inv, StepFlush, StepDraw, StepAppend, StepSend, StepFetch;
    ReachableInv(s0, s);
    TriesOne(s, w);
    NeverStuck(s, w);
    var k := s.lanes[w].retry[0].req.from;
    assert |s.sh.db| == |s0.sh.db| by { LockOwnership(s0, s, k); }
    LockedIffOwned(s0, s, k);
  }

  /** The higher key is locked if and only if nobody owns it, and then the transfer is in the buffer with both. A
      refused transfer waits, and the lower key will be given back. */
  lemma SecondLockIff(s0: State, s: State, w: nat, timeout: bool)
    requires Reachable(s0, s) && w < |s.lanes| && s.lanes[w].pc.LockTo?
    ensures s.lanes[w].retry != []
    ensures var s', r, lane := Next(s, Step(w, Worker(timeout))), s.lanes[w].retry[0].req, s.lanes[w];
            && |s'.lanes| == |s.lanes|
            && (Owned(s, r.to) <==> OwnedElsewhere(s, w, r.to))
            && if Owned(s, r.to) then s'.sh == s.sh && s'.lanes[w] == lane.(pc := Rollback)
               else Owns(s', Buffered(w), r.from) && Owns(s', Buffered(w), r.to)
                    && s'.lanes[w] == lane.(buf := lane.buf + lane.retry, retry := [], pc := Flush)
  {
    hide Reachable, Inv, StepFlush, StepDraw, StepAppend, StepSend, StepFetch;
    ReachableInv(s0, s);
    TriesOne(s, w);
    NeverStuck(s, w);
    var lane := s.lanes[w];
    var r := lane.retry[0].req;
    assert |s.sh.db| == |s0.sh.db| by { LockOwnership(s0, s, r.to); }
    LockedIffOwned(s0, s, r.to);
    assert lane.retry == [lane.retry[0]];
    LastKeys(lane.buf, lane.retry[0]);
  }

  lemma LastKeys(xs: seq<Xact>, x: Xact)
    ensures x.req.from in Keys(xs + [x]) && x.req.to in Keys(xs + [x])
  {
  }

  /** After the rollback nobody owns the lower key. */
  lemma RollbackFrees(s0: State, s: State, w: nat, timeout: bool)
    requires Reachable(s0, s) && w < |s.lanes| && s.lanes[w].pc.Rollback?
    ensures s.lanes[w].retry != []
    ensures var s', lane := Next(s, Step(w, Worker(timeout))), s.lanes[w];
            && |s'.lanes| == |s.lanes| && s'.lanes[w] == lane.(pc := Flush)
            && !Owned(s', lane.retry[0].req.from)
  {
    hide Reachable, Inv, StepFlush, StepDraw, StepAppend, StepSend, StepFetch, Owned;
    ReachableInv(s0, s);
    TriesOne(s, w);
    NeverStuck(s, w);
    var k, s' := s.lanes[w].retry[0].req.from, Next(s, Step(w, Worker(timeout)));
    assert |s.sh.db| == |s0.sh.db| by { LockOwnership(s0, s, k); }
    ReachableNext(s0, s, Step(w, Worker(timeout)));
    LockedIffOwned(s0, s', k);
  }

  lemma ReachableNext(s0: State, s: State, step: Step)
    requires Reachable(s0, s)
    ensures Reachable(s0, Next(s, step))
  {
    hide Start, Next;
    var steps :| s == Run(s0, steps);
    assert (steps + [step])[..|steps|] == steps;
    assert Next(s, step) == Run(s0, steps + [step]);
  }
}
