/// The steps an executor and the others have taken: what an execution of the executor's code can rely on.

module SiloTraces {
  import opened Tidwords
  import opened Silo
  import opened SiloInvariant
  import opened SiloRuns
  import opened SiloTheorems
  import opened SiloRefusals
  import opened SiloClients
  import opened Amounts

  ghost predicate Reached(start: State, trace: seq<Step>, st: State) {
    Start(start) && st == Run(start, trace)
  }

  lemma ReachedNext(start: State, trace: seq<Step>, st: State, step: Step)
    requires Reached(start, trace, st)
    ensures Reached(start, trace + [step], Next(st, step))
  {
    hide Start, Next;
    assert (trace + [step])[..|trace|] == trace;
  }

  lemma NextIs(s: State, t: nat, a: Action)
    requires t < |s.thr| && Enabled(s.sh, t, s.thr[t], a)
    ensures var s' := Next(s, Step(t, a));
            |s'.thr| == |s.thr| && Pair(s'.sh, s'.thr[t]) == Act(s.sh, t, s.thr[t], a)
  {
    hide Enabled, Act;
  }

  /** `trace'` goes on from `trace` with steps of executors other than `t`. */
  ghost predicate OthersRan(trace: seq<Step>, trace': seq<Step>, t: nat) {
    && |trace| <= |trace'| && trace'[..|trace|] == trace
    && forall i :: |trace| <= i < |trace'| ==> trace'[i].t != t
  }

  lemma {:induction false} OthersKeep(start: State, trace: seq<Step>, trace': seq<Step>, t: nat)
    requires OthersRan(trace, trace', t) && t < |start.thr|
    ensures |Run(start, trace').thr| == |Run(start, trace).thr| == |start.thr|
    ensures Run(start, trace').thr[t] == Run(start, trace).thr[t]
  {
    RunLength(start, trace);
    RunLength(start, trace');
    if |trace'| > |trace| {
      var p := trace'[..|trace'| - 1];
      assert p[..|trace|] == trace;
      OthersKeep(start, trace, p, t);
      NextFrame(Run(start, p), trace'[|trace'| - 1]);
    } else {
      assert trace' == trace;
    }
  }

  lemma {:induction false} RunLength(start: State, trace: seq<Step>)
    ensures |Run(start, trace).thr| == |start.thr|
  {
    if trace != [] {
      RunLength(start, trace[..|trace| - 1]);
      NextFrame(Run(start, trace[..|trace| - 1]), trace[|trace| - 1]);
    }
  }

  // ----- the calls of an executor -----

  /** From position `from` on, every call of executor `t` is one of a transfer. */
  ghost predicate OwnCalls(start: State, trace: seq<Step>, from: nat, t: nat) {
    && from <= |trace|
    && forall i :: from <= i < |trace| && trace[i].t == t ==> CallsFrom(Run(start, trace[..i]), trace[i])
  }

  lemma OwnCall(start: State, trace: seq<Step>, step: Step, from: nat)
    requires OwnCalls(start, trace, from, step.t) && CallsFrom(Run(start, trace), step)
    ensures OwnCalls(start, trace + [step], from, step.t)
  {
    hide CallsFrom, Run;
    var trace' := trace + [step];
    forall i | from <= i < |trace'| && trace'[i].t == step.t ensures CallsFrom(Run(start, trace'[..i]), trace'[i]) {
      assert trace'[..i] == trace[..i];
      assert i == |trace| ==> trace[..i] == trace;
    }
  }

  /** The mark stays where it is if `step`, taken in state `s`, is a call of a transfer. */
  ghost predicate KeepsMark(s: State, step: Step, mark: nat, mark': nat) {
    CallsFrom(s, step) ==> mark' == mark
  }

  /** The steps of others are not calls of `t`. */
  lemma OthersCall(start: State, trace: seq<Step>, trace': seq<Step>, from: nat, t: nat)
    requires OwnCalls(start, trace, from, t) && OthersRan(trace, trace', t)
    ensures OwnCalls(start, trace', from, t)
  {
    hide CallsFrom, Run;
    forall i | from <= i < |trace'| && trace'[i].t == t ensures CallsFrom(Run(start, trace'[..i]), trace'[i]) {
      assert trace'[..i] == trace'[..|trace|][..i];
      assert trace'[i] == trace'[..|trace|][i];
    }
  }

  /** A step inside a call, an abort and the work of the leader go with every transfer. */
  lemma InnerStep(s: State, t: nat, a: Action)
    requires a.Tick? || a.Abort? || a.Leader?
    ensures CallsFrom(s, Step(t, a))
  {
    if t < |s.thr| {
      assert Calls(s.thr[t], a, Request(0, 1, 0));
    }
  }

  /** A call that a transfer makes here. */
  lemma ProperCall(s: State, t: nat, a: Action, r: Request)
    requires t < |s.thr| && Calls(s.thr[t], a, r)
    ensures CallsFrom(s, Step(t, a))
  {
  }

  lemma OwnNothing(start: State, trace: seq<Step>, t: nat)
    ensures OwnCalls(start, trace, |trace|, t)
  {
  }

  /** In every run, the next access of an executor has its indices in range. */
  lemma NextAccessInRange(s: State, t: nat)
    requires Inv(s) && t < |s.thr|
    requires !s.thr[t].pc.Ready? && !s.thr[t].pc.Failed?
    requires s.thr[t].pc.Choose? ==> CountersHaveRoom(s.thr[t], s.sh.local[t])
    requires s.thr[t].pc.Scan? ==> s.sh.epoch + 1 < EPOCH_LIMIT
    ensures TickEnabled(s.sh, t, s.thr[t])
    ensures SharedShape(s.sh) && LocalShape(|s.sh.table|, s.sh.width, t, s.thr[t])
  {
    hide RecordInv, LogInv, LiveInv, OrdersInv, LocksInv, PastInv, ReadsInv, MaxInv, EpochInv, ReadsOk, HeldInv;
    assert LocalInv(s.sh, t, s.thr[t]);
  }

  lemma InvShape(s: State, t: nat)
    requires Inv(s) && t < |s.thr|
    ensures SharedShape(s.sh) && LocalShape(|s.sh.table|, s.sh.width, t, s.thr[t])
    ensures |s.sh.local| == |s.thr|
  {
    hide RecordInv, LogInv, LiveInv, OrdersInv;
    assert LocalInv(s.sh, t, s.thr[t]);
  }

  // ----- the commits of an executor -----

  /** The log positions of an executor's commits. */
  ghost function CommitsBy(log: seq<Entry>, t: nat): set<nat> {
    set i: nat | i < |log| && log[i].thread == t && log[i].outcome.Done?
  }

  /** A step changes the commits of nobody but its executor's, and those by one, when it chooses the commit TID. */
  lemma StepCommits(s: State, t: nat, a: Action, u: nat)
    requires Inv(s) && t < |s.thr| && Enabled(s.sh, t, s.thr[t], a)
    ensures var l, log, log' := s.thr[t], s.sh.log, Act(s.sh, t, s.thr[t], a).sh.log;
            if u == t && a.Tick? && l.pc.Choose?
            then l.entry >= 0 && CommitsBy(log', u) == CommitsBy(log, u) + {l.entry} && l.entry !in CommitsBy(log, u)
            else CommitsBy(log', u) == CommitsBy(log, u)
  {
    hide Act, Enabled, Inv, CommitsBy;
    var l := s.thr[t];
    EntryOfThread(s, t);
    ActOnLog(s.sh, t, l, a);
    if a.Tick? {
      TickOnLog(s.sh, t, l);
      SameCommits(s.sh.log, TickPair(s.sh, t, l).sh.log, t, l.entry, l.pc.Choose?, u);
    }
  }

  lemma ActOnLog(sh: Shared, t: nat, l: Local, a: Action)
    requires Enabled(sh, t, l, a)
    ensures if a.Tick? then TickEnabled(sh, t, l) && Act(sh, t, l, a) == TickPair(sh, t, l)
            else Act(sh, t, l, a).sh == sh
  {
    hide TickEnabled, TickPair, SortByKey, SearchRead, SearchWrite;
  }

  lemma EntryOfThread(s: State, t: nat)
    requires Inv(s) && t < |s.thr|
    ensures var l, log := s.thr[t], s.sh.log;
            && (Serialized(l.pc) ==> 0 <= l.entry < |log| && log[l.entry].thread == t)
            && (Serialized(l.pc) && !l.pc.Install? ==> log[l.entry].outcome.Pending?)
  {
    hide SharedInv, LagInv;
    assert LocalInv(s.sh, t, s.thr[t]);
  }

  /** What a step may do to the log: append a pending entry, or decide the executor's own. */
  ghost predicate LogStep(log: seq<Entry>, log': seq<Entry>, t: nat, entry: int, choose: bool) {
    || (log' == log && !choose)
    || (|log'| == |log| + 1 && log'[..|log|] == log && log'[|log|].outcome.Pending? && !choose)
    || (0 <= entry < |log| && log[entry].thread == t && log[entry].outcome.Pending?
        && exists o: Outcome :: log' == log[entry := log[entry].(outcome := o)]
                                && if choose then o.Done? else o.Gone?)
  }

  lemma TickOnLog(sh: Shared, t: nat, l: Local)
    requires TickEnabled(sh, t, l)
    requires Serialized(l.pc) ==> 0 <= l.entry < |sh.log| && sh.log[l.entry].thread == t
    requires Serialized(l.pc) && !l.pc.Install? ==> sh.log[l.entry].outcome.Pending?
    ensures LogStep(sh.log, TickPair(sh, t, l).sh.log, t, l.entry, l.pc.Choose?)
  {
    hide Puts, CommitWord, Max, SearchWrite, Over, OverAll, Bases;
    var log' := TickPair(sh, t, l).sh.log;
    if l.pc.Choose? {
      assert log' == sh.log[l.entry := sh.log[l.entry].(outcome := log'[l.entry].outcome)];
    } else if l.pc.Validate? && log' != sh.log {
      assert log' == sh.log[l.entry := sh.log[l.entry].(outcome := Gone)];
    }
  }

  lemma SameCommits(log: seq<Entry>, log': seq<Entry>, t: nat, entry: int, choose: bool, u: nat)
    requires LogStep(log, log', t, entry, choose)
    ensures if u == t && choose then entry >= 0 && CommitsBy(log', u) == CommitsBy(log, u) + {entry}
                                     && entry !in CommitsBy(log, u)
            else CommitsBy(log', u) == CommitsBy(log, u)
  {
    if |log'| == |log| + 1 {
      assert forall i :: 0 <= i < |log| ==> log'[i] == log[i];
    }
  }

  lemma {:induction false} OthersCommits(start: State, trace: seq<Step>, trace': seq<Step>, t: nat)
    requires Start(start) && OthersRan(trace, trace', t)
    ensures CommitsBy(Run(start, trace').sh.log, t) == CommitsBy(Run(start, trace).sh.log, t)
  {
    if |trace'| > |trace| {
      hide Start, CommitsBy, Act, Enabled;
      var p, last := trace'[..|trace'| - 1], trace'[|trace'| - 1];
      assert p[..|trace|] == trace;
      OthersCommits(start, trace, p, t);
      var s := Run(start, p);
      RunKeeps(start, p);
      if last.t < |s.thr| && Enabled(s.sh, last.t, s.thr[last.t], last.a) {
        StepCommits(s, last.t, last.a, t);
      }
    } else {
      assert trace' == trace;
    }
  }

  // ----- the order of the log -----

  /** Position `j` of the log is what executor `t` of state `c` adds to it by loading the epoch. */
  ghost predicate AddedBy(c: State, j: nat, e: Entry) {
    && |c.sh.log| == j && e.thread < |c.thr| && c.thr[e.thread].pc.EpochLoad? && e.epoch == c.sh.epoch
    && e.gets == c.thr[e.thread].rset && e.writes == c.thr[e.thread].wset
  }

  predicate SameOrigin(e: Entry, e': Entry) {
    e'.thread == e.thread && e'.epoch == e.epoch && e'.gets == e.gets && e'.writes == e.writes
  }

  /** The log is the order of the epoch loads: each entry was added by such a load of its executor, with the reads and
      writes that the executor had then, all of which records it had locked, and its epoch is the global epoch of that
      moment. */
  lemma {:induction false} LogIsEpochLoads(s0: State, steps: seq<Step>, j: nat) returns (n: nat)
    requires Start(s0) && j < |Run(s0, steps).sh.log|
    ensures var e := Run(s0, steps).sh.log[j];
            && n < |steps| && steps[n] == Step(e.thread, Tick) && AddedBy(Run(s0, steps[..n]), j, e)
            && forall i :: 0 <= i < |e.writes| ==> HeldBy(Run(s0, steps[..n]).thr[e.thread], e.writes[i].key)
  {
    hide Start, Next, HeldBy, AddedBy;
    assert steps != [] by { NoLogYet(s0); }
    var m := |steps| - 1;
    var s := Run(s0, steps[..m]);
    RunKeeps(s0, steps[..m]);
    OriginStep(s, steps[m]);
    var e := Run(s0, steps).sh.log[j];
    if j < |s.sh.log| {
      n := LogIsEpochLoads(s0, steps[..m], j);
      assert steps[..m][..n] == steps[..n];
      SameAdded(Run(s0, steps[..n]), j, s.sh.log[j], e);
    } else {
      n := m;
      AllHeld(s, j, e);
    }
  }

  lemma NoLogYet(s0: State)
    requires Start(s0)
    ensures Run(s0, []).sh.log == []
  {
  }

  lemma SameAdded(c: State, j: nat, e: Entry, e': Entry)
    requires AddedBy(c, j, e) && SameOrigin(e, e')
    ensures AddedBy(c, j, e')
  {
  }

  lemma AllHeld(s: State, j: nat, e: Entry)
    requires AddedBy(s, j, e)
    ensures forall i :: 0 <= i < |e.writes| ==> HeldBy(s.thr[e.thread], e.writes[i].key)
  {
  }

  lemma OriginStep(s: State, step: Step)
    requires Inv(s)
    ensures var log, log' := s.sh.log, Next(s, step).sh.log;
            && |log| <= |log'| && (forall j :: 0 <= j < |log| ==> SameOrigin(log[j], log'[j]))
            && (forall j :: |log| <= j < |log'| ==> step == Step(log'[j].thread, Tick) && AddedBy(s, j, log'[j]))
  {
    hide Act, Enabled, Inv;
    var t, a := step.t, step.a;
    if t < |s.thr| && Enabled(s.sh, t, s.thr[t], a) {
      EntryOfThread(s, t);
      ActOnLog(s.sh, t, s.thr[t], a);
      if a.Tick? {
        TickOnLog(s.sh, t, s.thr[t]);
        TickAdds(s.sh, t, s.thr[t]);
      }
    }
  }

  lemma TickAdds(sh: Shared, t: nat, l: Local)
    requires TickEnabled(sh, t, l)
    ensures var log' := TickPair(sh, t, l).sh.log;
            |log'| > |sh.log| ==>
              && |log'| == |sh.log| + 1 && l.pc.EpochLoad?
              && var e := log'[|sh.log|];
                 e.thread == t && e.epoch == sh.epoch && e.gets == l.rset && e.writes == l.wset
  {
    hide Puts, CommitWord, Max, SearchWrite, Over, OverAll, Bases;
  }

  // ----- running alone -----

  lemma SomebodyMoved(trace: seq<Step>, trace': seq<Step>, t: nat)
    requires OthersRan(trace, trace', t) && |trace| < |trace'|
    ensures exists i :: |trace| <= i < |trace'| && trace'[i].t != t
  {
    assert trace'[|trace|].t != t;
  }

  /** If only others have moved, and only `t` has moved, nobody has. */
  lemma NobodyMoved(trace: seq<Step>, trace': seq<Step>, t: nat)
    requires OthersRan(trace, trace', t) && forall i :: |trace| <= i < |trace'| ==> trace'[i].t == t
    ensures trace' == trace
  {
    if |trace| < |trace'| {
      SomebodyMoved(trace, trace', t);
      assert false;
    }
  }

  /** The value of the read-set element is the current one, and nobody else is about to change it. */
  predicate Current(r: ReadElement, table: seq<Tuple>, wset: seq<WriteElement>) {
    && r.key < |table| && Ver(table[r.key].word) == Ver(r.word)
    && (table[r.key].word.lock ==> SearchWrite(wset, r.key) >= 0)
  }

  /** `table'` is `table`, except that records of the first `n` elements of `wset` may have been locked. */
  ghost predicate OnlyLocked(table: seq<Tuple>, table': seq<Tuple>, wset: seq<WriteElement>, n: nat) {
    && |table'| == |table|
    && forall k :: 0 <= k < |table| ==>
         && Ver(table'[k].word) == Ver(table[k].word)
         && ((forall x :: 0 <= x < n && x < |wset| ==> wset[x].key != k) ==> table'[k] == table[k])
  }

  lemma LockOneMore(table: seq<Tuple>, table': seq<Tuple>, wset: seq<WriteElement>, n: nat, w: Tidword)
    requires OnlyLocked(table, table', wset, n) && n < |wset| && wset[n].key < |table|
    requires Ver(w) == Ver(table'[wset[n].key].word)
    ensures OnlyLocked(table, table'[wset[n].key := table'[wset[n].key].(word := w)], wset, n + 1)
  {
    hide Ver;
    var k := wset[n].key;
    forall j | 0 <= j < |table| && forall x :: 0 <= x < n + 1 && x < |wset| ==> wset[x].key != j
      ensures table'[j] == table[j] && j != k
    {
      assert wset[n].key != j;
    }
  }

  /** The next record is as it was. */
  lemma NextIsFree(table: seq<Tuple>, table': seq<Tuple>, wset: seq<WriteElement>, n: nat)
    requires OnlyLocked(table, table', wset, n) && DistinctWrites(wset) && n < |wset| && wset[n].key < |table|
    ensures table'[wset[n].key] == table[wset[n].key]
  {
    forall x | 0 <= x < n ensures wset[x].key != wset[n].key {
      assert ApartWrites(wset, x, n);
    }
  }

  /** A read that is current stays so when the executor locks its write set. */
  lemma StaysCurrent(table: seq<Tuple>, table': seq<Tuple>, wset: seq<WriteElement>, r: ReadElement)
    requires OnlyLocked(table, table', wset, |wset|) && Current(r, table, [])
    ensures Current(r, table', wset)
  {
    hide Ver;
  }

  // ----- reasons -----

  /** Since step `from`, executor `t` has made a load that gives it a reason to abort. */
  ghost predicate Caused(start: State, trace: seq<Step>, from: nat, t: nat) {
    exists m: nat :: from <= m && Cause(start, trace, m, t)
  }

  lemma CauseSince(start: State, trace: seq<Step>, m: nat, from: nat, t: nat)
    requires Cause(start, trace, m, t) && from <= m
    ensures Caused(start, trace, from, t)
  {
    hide Cause;
  }

  lemma CausedStays(start: State, trace: seq<Step>, trace': seq<Step>, from: nat, from': nat, t: nat)
    requires Caused(start, trace, from, t) && from' <= from && |trace| <= |trace'|
    requires forall i :: 0 <= i < |trace| ==> trace'[i] == trace[i]
    ensures Caused(start, trace', from', t)
  {
    hide Run, FindsLocked, FindsStale;
    var m: nat :| from <= m && Cause(start, trace, m, t);
    assert trace'[..m] == trace[..m];
    assert Cause(start, trace', m, t);
  }

  /** At step `m`, executor `t` loaded `word` to lock element `i` of its write set. */
  ghost predicate Loads(start: State, trace: seq<Step>, m: nat, t: nat, i: nat, k: nat, word: Tidword) {
    m < |trace| && trace[m].t == t && LoadedAt(Run(start, trace[..m]), t, i, k, word)
  }

  lemma LoadsStays(start: State, trace: seq<Step>, trace': seq<Step>, m: nat, t: nat, i: nat, k: nat, word: Tidword)
    requires Loads(start, trace, m, t, i, k, word) && |trace| <= |trace'|
    requires forall i :: 0 <= i < |trace| ==> trace'[i] == trace[i]
    ensures Loads(start, trace', m, t, i, k, word)
  {
    hide Run, LoadedAt;
    assert trace'[..m] == trace[..m];
  }

  lemma LoadsNow(start: State, trace: seq<Step>, st: State, step: Step, i: nat, k: nat, word: Tidword)
    requires Reached(start, trace, st) && LoadedAt(st, step.t, i, k, word)
    ensures Loads(start, trace + [step], |trace|, step.t, i, k, word)
  {
    hide Start, Run, LoadedAt;
    assert (trace + [step])[..|trace|] == trace;
  }

  /** A locked word is a reason to abort. */
  lemma LockedIsCause(start: State, trace: seq<Step>, m: nat, t: nat, i: nat, k: nat, word: Tidword)
    requires Start(start) && Loads(start, trace, m, t, i, k, word) && word.lock
    ensures Cause(start, trace, m, t)
  {
    hide Start, Run, HeldByOther;
    Reaches(start, trace[..m]);
    LooksLocked(start, Run(start, trace[..m]), t, i, k);
  }

  lemma StaleIsCause(start: State, trace: seq<Step>, st: State, step: Step)
    requires Reached(start, trace, st) && FindsStale(st, step.t)
    ensures Cause(start, trace + [step], |trace|, step.t)
  {
    hide Start, Run, FindsStale, FindsLocked;
    assert (trace + [step])[..|trace|] == trace;
  }

  /** A read-set element is stale exactly when the check of the executor fails. */
  lemma StaleIff(start: State, trace: seq<Step>, st: State, t: nat)
    requires Reached(start, trace, st) && t < |st.thr| && st.thr[t].pc.Validate? && st.thr[t].pc.i < |st.thr[t].rset|
    ensures FindsStale(st, t) <==> !Current(st.thr[t].rset[st.thr[t].pc.i], st.sh.table, st.thr[t].wset)
  {
    hide Start, Run, HeldBy, HeldByOther, Ver;
    Reaches(start, trace);
    assert Inv(st) by { RunKeeps(start, trace); }
    ReadsOf(st, t);
    var l := st.thr[t];
    var k := l.rset[l.pc.i].key;
    ReachableInv(start, st);
    LockedByOther(start, st, t, k);
    ValidatorHolds(l, k);
  }

  /** Sorting a write set keeps its keys. */
  lemma SortMembers(wset: seq<WriteElement>, x: nat)
    requires x < |wset|
    ensures SortByKey(wset)[x] in wset
  {
    hide SortByKey;
    SortPermutes(wset);
    assert SortByKey(wset)[x] in multiset(SortByKey(wset));
  }
}
