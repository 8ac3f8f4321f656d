/// A task can be lost: a run in which the last acknowledgement overtakes the storing of the task.

module PipelineExample {
  import opened Amounts
  import opened Pipeline
  import opened PipelineTheorems
  import opened PipelineDrain
  import Serial

  // One worker, two followers, two accounts and one transfer.

  const X := Xact(0, 0, Request(0, 1, 5))
  const E := Entry(0, [X])
  const FRESH := Lane([], [], Fetch, [], [], [], [NEW_LINK, NEW_LINK], [])
  const TABLE := Shared(2, 1, [10, 20], [false, false], 0, map[], [10, 20], [Free, Free], [], [])

  /** The table with owners `a` and `b` of the two accounts. */
  function Locked(a: Owner, b: Owner): Shared {
    TABLE.(locks := [!a.Free?, !b.Free?], owner := [a, b])
  }

  /** ... and the entry drawn, with `phase` and `voters` recorded about it. */
  function Tracked(phase: Phase, voters: set<nat>, votes: map<nat, nat>): Shared {
    Locked(Entered(0), Entered(0)).(lsn := 1, votes := votes, ledger := [Track(0, [X], phase, 0, voters, {}, [])],
                                    hist := [Serial.Txn(map[], map[])])
  }

  function Before(pc: WorkerPc, retry: seq<Xact>, buf: seq<Xact>): Lane {
    FRESH.(pc := pc, retry := retry, buf := buf, enq := [X])
  }

  function Sending(f: nat, a: Link, b: Link): Lane {
    FRESH.(pc := Send(E, f), log := [E], links := [a, b], enq := [X])
  }

  lemma Go(s0: State, sh: Shared, lane: Lane, a: Action, sh': Shared, lane': Lane)
    requires Reachable(s0, State(sh, [lane])) && Enabled(sh, lane, a) && Act(sh, 0, lane, a) == Pair(sh', lane')
    ensures Reachable(s0, State(sh', [lane']))
  {
    hide Start, Enabled, Act;
    var s, s' := State(sh, [lane]), State(sh', [lane']);
    assert s' == Next(s, Step(0, a)) by { assert s.lanes[0 := lane'] == [lane']; }
    var steps :| s == Run(s0, steps);
    var steps' := steps + [Step(0, a)];
    assert steps'[..|steps|] == steps;
    assert s' == Run(s0, steps');
  }

  lemma TakeLocks() returns (s0: State)
    ensures Reachable(s0, State(Locked(Buffered(0), Buffered(0)), [Before(Flush, [], [X])]))
  {
    hide Reachable;
    s0 := State(TABLE, [FRESH]);
    assert Reachable(s0, s0) by { AtStart(s0); }
    Go(s0, TABLE, FRESH, Enqueue(X), TABLE, Before(Fetch, [], []).(queue := [X]));
    Go(s0, TABLE, Before(Fetch, [], []).(queue := [X]), Worker(true), TABLE, Before(LockFrom, [X], []));
    Go(s0, TABLE, Before(LockFrom, [X], []), Worker(true), Locked(Acquiring(0), Free), Before(LockTo, [X], []));
    Go(s0, Locked(Acquiring(0), Free), Before(LockTo, [X], []), Worker(true),
       Locked(Buffered(0), Buffered(0)), Before(Flush, [], [X]));
  }

  lemma AtStart(s0: State)
    requires s0 == State(TABLE, [FRESH])
    ensures Reachable(s0, s0)
  {
    assert s0 == Run(s0, []);
  }

  const SENT := NEW_LINK.(chan := [E])
  const RECEIVED := NEW_LINK.(flog := [E], rpc := Replying(0))
  const ACKED := NEW_LINK.(flog := [E], acks := [0])
  const COUNTED := NEW_LINK.(flog := [E], counted := 1)

  lemma SendAll() returns (s0: State)
    ensures Reachable(s0, State(Tracked(Logged, {}, map[]), [Sending(2, SENT, SENT)]))
  {
    hide Reachable;
    s0 := TakeLocks();
    var sh := Locked(Buffered(0), Buffered(0));
    var drawn, logged := Tracked(Drawn, {}, map[]), Tracked(Logged, {}, map[]);
    Go(s0, sh, Before(Flush, [], [X]), Worker(true), sh, Before(Draw, [], [X]));
    assert Keys([X]) == {0, 1} by { assert [X][..0] == []; }
    assert Enter(sh.owner, {0, 1}, 0) == [Entered(0), Entered(0)];
    Go(s0, sh, Before(Draw, [], [X]), Worker(true), drawn, Before(Append(E), [], []));
    Go(s0, drawn, Before(Append(E), [], []), Worker(true), logged, Sending(0, NEW_LINK, NEW_LINK));
    Go(s0, logged, Sending(0, NEW_LINK, NEW_LINK), Worker(true), logged, Sending(1, SENT, NEW_LINK));
    Go(s0, logged, Sending(1, SENT, NEW_LINK), Worker(true), logged, Sending(2, SENT, SENT));
  }

  lemma AckAll() returns (s0: State)
    ensures Reachable(s0, State(Tracked(Logged, {}, map[]), [Sending(2, ACKED, ACKED)]))
  {
    hide Reachable;
    s0 := SendAll();
    var sh := Tracked(Logged, {}, map[]);
    assert Receive(SENT) == RECEIVED && Reply(RECEIVED) == ACKED by {
      assert SENT.chan[1..] == [] && [] + [E] == [E] && [] + [0] == [0];
    }
    assert [SENT, SENT][0 := RECEIVED] == [RECEIVED, SENT] && [RECEIVED, SENT][0 := ACKED] == [ACKED, SENT];
    assert [ACKED, SENT][1 := RECEIVED] == [ACKED, RECEIVED] && [ACKED, RECEIVED][1 := ACKED] == [ACKED, ACKED];
    Go(s0, sh, Sending(2, SENT, SENT), Receiver(0), sh, Sending(2, RECEIVED, SENT));
    Go(s0, sh, Sending(2, RECEIVED, SENT), Receiver(0), sh, Sending(2, ACKED, SENT));
    Go(s0, sh, Sending(2, ACKED, SENT), Receiver(1), sh, Sending(2, ACKED, RECEIVED));
    Go(s0, sh, Sending(2, ACKED, RECEIVED), Receiver(1), sh, Sending(2, ACKED, ACKED));
  }

  /** The worker has sent the entry to both followers and not yet stored the task, when both have acknowledged it and
      both acknowledgements are counted: the second notifier looks for the task, finds none, and nobody ever will. */
  lemma TaskCanBeLost() returns (s0: State, s: State)
    ensures Reachable(s0, s) && s0.sh.followers == 2 && Lost(s, 0)
  {
    hide Reachable;
    s0 := AckAll();
    var sh := Tracked(Logged, {}, map[]);
    var one, two := Tracked(Logged, {0}, map[0 := 1]), Tracked(Logged, {0, 1}, map[0 := 2]);
    assert ACKED.acks[1..] == [] && map[][0 := 1] == map[0 := 1] && map[0 := 1][0 := 2] == map[0 := 2];
    assert {} + {0} == {0} && {0} + {1} == {0, 1};
    assert StepCount(sh, Sending(2, ACKED, ACKED), 0) == Pair(one, Sending(2, COUNTED, ACKED)) by {
      assert [ACKED, ACKED][0 := COUNTED] == [COUNTED, ACKED];
    }
    assert [COUNTED, ACKED][1 := COUNTED.(npc := Load(0))] == [COUNTED, COUNTED.(npc := Load(0))];
    Go(s0, sh, Sending(2, ACKED, ACKED), Notifier(0), one, Sending(2, COUNTED, ACKED));
    Go(s0, one, Sending(2, COUNTED, ACKED), Notifier(1), two, Sending(2, COUNTED, COUNTED.(npc := Load(0))));
    Go(s0, two, Sending(2, COUNTED, COUNTED.(npc := Load(0))), Notifier(1), two, Sending(2, COUNTED, COUNTED));
    s := State(two, [Sending(2, COUNTED, COUNTED)]);
    assert s0.sh.followers == 2 by { FollowersOf(s0, s); }
    assert |{0, 1}| == 2;
  }

  lemma FollowersOf(s0: State, s: State)
    requires Reachable(s0, s)
    ensures s0.sh.followers == s.sh.followers
  {
    ReachableInv(s0, s);
  }
}
