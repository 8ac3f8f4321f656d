/// Why a transaction is aborted, and why an attempt to lock a record succeeds.

module SiloRefusals {
  import opened Tidwords
  import opened Silo
  import opened SiloInvariant
  import opened SiloRuns
  import opened SiloTheorems

  /** Another executor holds record `k`. */
  ghost predicate HeldByOther(s: State, t: nat, k: nat) {
    exists u :: 0 <= u < |s.thr| && u != t && HeldBy(s.thr[u], k)
  }

  /** The executor is about to look, for its write lock, at the word of record `k`: element `i` of its write set. */
  predicate LooksAt(l: Local, i: nat, k: nat) {
    && ((l.pc.LockLoad? && l.pc.i == i) || (l.pc.LockTry? && l.pc.i == i))
    && i < |l.wset| && l.wset[i].key == k
  }

  /** The executor is about to load the word of a record of its write set that another executor holds. */
  ghost predicate FindsLocked(s: State, t: nat) {
    && t < |s.thr|
    && exists i: nat, k: nat :: LooksAt(s.thr[t], i, k) && k < |s.sh.table| && s.sh.table[k].word.lock
                                && HeldByOther(s, t, k)
  }

  /** Element `i` of the read set has been overwritten since it was read, or another executor holds its record. */
  ghost predicate Stale(s: State, t: nat, i: nat)
    requires t < |s.thr| && i < |s.thr[t].rset|
  {
    var r := s.thr[t].rset[i];
    r.key < |s.sh.table| && (Ver(s.sh.table[r.key].word) != Ver(r.word) || HeldByOther(s, t, r.key))
  }

  ghost predicate FindsStale(s: State, t: nat) {
    && t < |s.thr| && s.thr[t].pc.Validate? && s.thr[t].pc.i < |s.thr[t].rset|
    && Stale(s, t, s.thr[t].pc.i)
  }

  /** Step `m` of the run is a load by executor `t` that gives it a reason to abort. */
  ghost predicate Cause(s0: State, steps: seq<Step>, m: nat, t: nat) {
    && m < |steps| && steps[m].t == t
    && (FindsLocked(Run(s0, steps[..m]), t) || FindsStale(Run(s0, steps[..m]), t))
  }

  // ----- locks -----

  lemma Reaches(s0: State, steps: seq<Step>)
    requires Start(s0)
    ensures Reachable(s0, Run(s0, steps))
  {
    hide Start, Run;
  }

  /** The lock bit of a record that an executor does not hold itself is set exactly when another one holds it. */
  lemma LockedByOther(s0: State, s: State, t: nat, k: nat)
    requires Reachable(s0, s) && k < |s0.sh.table| && t < |s0.thr|
    ensures |s.thr| == |s0.thr| && |s.sh.table| == |s0.sh.table|
    ensures !HeldBy(s.thr[t], k) ==> (s.sh.table[k].word.lock <==> HeldByOther(s, t, k))
    ensures HeldBy(s.thr[t], k) ==> s.sh.table[k].word.lock && !HeldByOther(s, t, k)
  {
    hide Reachable, HeldBy;
    assert |s.thr| == |s0.thr| by { ReachableInv(s0, s); }
    LockOwnership(s0, s, k);
  }

  /** While an executor is about to lock element `i`, it does not hold its record. */
  lemma NotYetHeld(l: Local, i: nat, k: nat)
    requires DistinctWrites(l.wset) && LooksAt(l, i, k)
    ensures !HeldBy(l, k)
  {
    forall j | 0 <= j < i ensures l.wset[j].key != k {
      assert ApartWrites(l.wset, j, i);
    }
  }

  lemma WritesOf(s: State, t: nat)
    requires Inv(s) && t < |s.thr|
    ensures DistinctWrites(s.thr[t].wset)
    ensures forall i :: 0 <= i < |s.thr[t].wset| ==> s.thr[t].wset[i].key < |s.sh.table|
    ensures t < |s.sh.local| && |s.sh.meta| == |s.sh.table|
  {
    hide RecordInv, LogInv, LiveInv, OrdersInv, SlotInv, ScannedInv;
    assert LocalInv(s.sh, t, s.thr[t]);
  }

  /** So when it looks at a record that is locked, another executor holds the record. */
  lemma LooksLocked(s0: State, s: State, t: nat, i: nat, k: nat)
    requires Reachable(s0, s) && t < |s.thr| && LooksAt(s.thr[t], i, k)
    ensures k < |s.sh.table| && !HeldBy(s.thr[t], k)
    ensures s.sh.table[k].word.lock <==> HeldByOther(s, t, k)
  {
    hide Reachable, HeldBy, Inv, HeldByOther;
    ReachableInv(s0, s);
    WritesOf(s, t);
    NotYetHeld(s.thr[t], i, k);
    LockedByOther(s0, s, t, k);
  }

  // ----- the last load -----

  /** At step `m` executor `t` loaded word `w` of record `k`, to lock it as element `i` of its write set; it has not
      moved since. */
  ghost predicate LastLoad(s0: State, steps: seq<Step>, m: nat, t: nat, i: nat, k: nat, w: Tidword) {
    && m < |steps| && steps[m].t == t
    && LoadedAt(Run(s0, steps[..m]), t, i, k, w)
    && Unmoved(s0, steps, m, t)
  }

  ghost predicate LoadedAt(s: State, t: nat, i: nat, k: nat, w: Tidword) {
    t < |s.thr| && LooksAt(s.thr[t], i, k) && k < |s.sh.table| && s.sh.table[k].word == w
  }

  /** Executor `t` is after `j` steps where it is at the end of the run. */
  ghost predicate StandsAt(s0: State, steps: seq<Step>, j: nat, t: nat) {
    j <= |steps| && SameLocal(Run(s0, steps[..j]), Run(s0, steps), t)
  }

  /** Executor `t` has not moved since step `m`. */
  ghost predicate Unmoved(s0: State, steps: seq<Step>, m: nat, t: nat) {
    forall j :: m < j <= |steps| ==> StandsAt(s0, steps, j, t)
  }

  predicate SameLocal(s: State, s': State, t: nat) {
    t < |s.thr| == |s'.thr| && s'.thr[t] == s.thr[t]
  }

  /** An executor comes to try a lock by loading the word, and in no other way. */
  lemma ComesToTry(s: State, step: Step, t: nat)
    requires t < |s.thr| && Next(s, step).thr[t].pc.LockTry?
    ensures var l := Next(s, step).thr[t];
            l != s.thr[t] ==>
              && step.t == t && l.wset == s.thr[t].wset && l.pc.i < |l.wset|
              && LoadedAt(s, t, l.pc.i, l.wset[l.pc.i].key, l.pc.expected)
  {
    hide SortByKey, SearchRead, SearchWrite, TickInstall, TickValidate, TickChoose, TickEpochLoad, TickReadCopy;
    if step.t == t && Enabled(s.sh, t, s.thr[t], step.a) && step.a.Tick? {
      var l := s.thr[t];
      TickComesToTry(s.sh, t, l);
    }
  }

  lemma TickComesToTry(sh: Shared, t: nat, l: Local)
    requires TickEnabled(sh, t, l) && TickPair(sh, t, l).l.pc.LockTry?
    ensures var l' := TickPair(sh, t, l).l;
            && l'.wset == l.wset && l'.pc.i < |l'.wset| && LooksAt(l, l'.pc.i, l'.wset[l'.pc.i].key)
            && l'.wset[l'.pc.i].key < |sh.table| && sh.table[l'.wset[l'.pc.i].key].word == l'.pc.expected
  {
    hide Puts, CommitWord, Max, SearchWrite, Over, OverAll, Bases;
  }

  lemma LoadIsLast(s0: State, steps: seq<Step>, t: nat, i: nat, k: nat, w: Tidword)
    requires steps != [] && steps[|steps| - 1].t == t && LoadedAt(Run(s0, steps[..|steps| - 1]), t, i, k, w)
    requires t < |Run(s0, steps).thr|
    ensures LastLoad(s0, steps, |steps| - 1, t, i, k, w)
  {
    hide Run, LoadedAt;
    assert steps[..|steps|] == steps;
  }

  lemma LoadStaysLast(s0: State, steps: seq<Step>, m: nat, t: nat, i: nat, k: nat, w: Tidword)
    requires steps != [] && LastLoad(s0, steps[..|steps| - 1], m, t, i, k, w)
    requires SameLocal(Run(s0, steps[..|steps| - 1]), Run(s0, steps), t)
    ensures LastLoad(s0, steps, m, t, i, k, w)
  {
    hide Run, LoadedAt, StandsAt, SameLocal;
    var front := steps[..|steps| - 1];
    assert steps[..m] == front[..m];
    forall j | m < j <= |steps| ensures StandsAt(s0, steps, j, t) {
      StandsOn(s0, steps, j, t);
    }
  }

  lemma StandsOn(s0: State, steps: seq<Step>, j: nat, t: nat)
    requires steps != [] && j <= |steps| && (j < |steps| ==> StandsAt(s0, steps[..|steps| - 1], j, t))
    requires SameLocal(Run(s0, steps[..|steps| - 1]), Run(s0, steps), t)
    ensures StandsAt(s0, steps, j, t)
  {
    hide Run;
    if j < |steps| {
      assert steps[..|steps| - 1][..j] == steps[..j];
    } else {
      assert steps[..j] == steps;
    }
  }

  lemma {:induction false} LastLoadOf(s0: State, steps: seq<Step>, t: nat) returns (m: nat)
    requires Start(s0) && t < |s0.thr| && |Run(s0, steps).thr| == |s0.thr| && Run(s0, steps).thr[t].pc.LockTry?
    ensures var l := Run(s0, steps).thr[t];
            l.pc.i < |l.wset| && LastLoad(s0, steps, m, t, l.pc.i, l.wset[l.pc.i].key, l.pc.expected)
  {
    hide Next, LoadedAt, LastLoad, Inv;
    assert steps != [];
    var front, last := steps[..|steps| - 1], steps[|steps| - 1];
    var a, l := Run(s0, front), Run(s0, steps).thr[t];
    RunKeeps(s0, front);
    hide Start;
    ComesToTry(a, last, t);
    if l != a.thr[t] {
      m := |steps| - 1;
      LoadIsLast(s0, steps, t, l.pc.i, l.wset[l.pc.i].key, l.pc.expected);
    } else {
      m := LastLoadOf(s0, front, t);
      LoadStaysLast(s0, steps, m, t, l.pc.i, l.wset[l.pc.i].key, l.pc.expected);
    }
  }

  /** What `lockWriteSet` does with the word it loaded last: it gives up if and only if that word was locked, which was
      so if and only if another executor held the record then; it takes an unlocked one if the record still has the
      same word; and otherwise it goes on with the word that the record has now. */
  lemma NoWaitLocking(s0: State, steps: seq<Step>, t: nat) returns (m: nat, i: nat, k: nat, w: Tidword)
    requires Start(s0) && t < |s0.thr| && |Run(s0, steps).thr| == |s0.thr| && Run(s0, steps).thr[t].pc.LockTry?
    ensures var s, s' := Run(s0, steps), Next(Run(s0, steps), Step(t, Tick));
            && k < |s0.sh.table| == |s.sh.table| == |s'.sh.table| && |s'.thr| == |s.thr|
            && LastLoad(s0, steps, m, t, i, k, w) && m < |steps| && LooksAt(s.thr[t], i, k)
            && (w.lock <==> HeldByOther(Run(s0, steps[..m]), t, k))
            && (s'.thr[t].status.Aborted? <==> w.lock)
            && (w.lock ==> s'.sh == s.sh)
            && (HeldBy(s'.thr[t], k) <==> !w.lock && s.sh.table[k].word == w)
            && (!w.lock && s.sh.table[k].word != w ==>
                  s'.sh == s.sh && s'.thr[t] == s.thr[t].(pc := LockTry(i, s.sh.table[k].word)))
  {
    hide Start, LastLoad, LoadedAt, HeldByOther;
    m := LastLoadOf(s0, steps, t);
    var s := Run(s0, steps);
    var l := s.thr[t];
    i, k, w := l.pc.i, l.wset[l.pc.i].key, l.pc.expected;
    LoadOf(s0, steps, m, t, i, k, w);
    Reaches(s0, steps);
    Reaches(s0, steps[..m]);
    LooksLocked(s0, Run(s0, steps[..m]), t, i, k);
    ReachableInv(s0, s);
    WritesOf(s, t);
    InFlightTry(s, t);
    TryOutcome(s, t);
  }

  lemma LoadOf(s0: State, steps: seq<Step>, m: nat, t: nat, i: nat, k: nat, w: Tidword)
    requires LastLoad(s0, steps, m, t, i, k, w)
    ensures m < |steps|
    ensures var c := Run(s0, steps[..m]);
            t < |c.thr| && LooksAt(c.thr[t], i, k) && k < |c.sh.table| && c.sh.table[k].word == w
  {
  }

  lemma InFlightTry(s: State, t: nat)
    requires Inv(s) && t < |s.thr| && (s.thr[t].pc.LockTry? || s.thr[t].pc.Validate?)
    ensures s.thr[t].status.InFlight?
    ensures s.thr[t].pc.LockTry? ==> s.thr[t].pc.i < |s.thr[t].wset|
  {
    hide SharedInv, LagInv;
    assert LocalInv(s.sh, t, s.thr[t]);
  }

  lemma TryOutcome(s: State, t: nat)
    requires t < |s.thr| && t < |s.sh.local| && |s.sh.meta| == |s.sh.table|
    requires DistinctWrites(s.thr[t].wset) && s.thr[t].pc.LockTry? && s.thr[t].pc.i < |s.thr[t].wset|
    requires s.thr[t].wset[s.thr[t].pc.i].key < |s.sh.table| && s.thr[t].status.InFlight?
    ensures var s', l := Next(s, Step(t, Tick)), s.thr[t];
            var i, w, k := l.pc.i, l.pc.expected, l.wset[l.pc.i].key;
            && |s'.sh.table| == |s.sh.table| && |s'.thr| == |s.thr|
            && (s'.thr[t].status.Aborted? <==> w.lock)
            && (w.lock ==> s'.sh == s.sh)
            && (HeldBy(s'.thr[t], k) <==> !w.lock && s.sh.table[k].word == w)
            && (!w.lock && s.sh.table[k].word != w ==>
                  s'.sh == s.sh && s'.thr[t] == l.(pc := LockTry(i, s.sh.table[k].word)))
  {
    var l := s.thr[t];
    var i, k := l.pc.i, l.wset[l.pc.i].key;
    var l' := Next(s, Step(t, Tick)).thr[t];
    assert l' == TickLockTry(s.sh, t, l, i, l.pc.expected).l;
    assert l'.wset == l.wset;
    forall j | 0 <= j < i ensures l.wset[j].key != k {
      assert ApartWrites(l.wset, j, i);
    }
    if !l.pc.expected.lock && s.sh.table[k].word == l.pc.expected {
      assert Lo(l'.pc) == 0 && Hi(l'.pc, |l.wset|) == i + 1;
      assert Holds(l'.wset, 0, i + 1, k);
    }
  }

  // ----- reads -----

  /** The check of a read-set element fails if and only if the record has been overwritten since it was read, or another
      executor holds it now; the executor's own lock does not count. */
  lemma RejectedIffStale(s0: State, s: State, t: nat)
    requires Reachable(s0, s) && t < |s.thr| && s.thr[t].pc.Validate? && s.thr[t].pc.i < |s.thr[t].rset|
    ensures var s' := Next(s, Step(t, Tick));
            && |s'.thr| == |s.thr| && s'.sh.table == s.sh.table
            && (s'.thr[t].status.Aborted? <==> Stale(s, t, s.thr[t].pc.i))
            && (!s'.thr[t].status.Aborted? ==> s'.thr[t].pc == Validate(s.thr[t].pc.i + 1))
  {
    hide Reachable, HeldBy, Inv, HeldByOther, Ver;
    ReachableInv(s0, s);
    var l := s.thr[t];
    var r := l.rset[l.pc.i];
    ReadsOf(s, t);
    InFlightTry(s, t);
    LockedByOther(s0, s, t, r.key);
    ValidatorHolds(l, r.key);
    SameVersion(r.word, s.sh.table[r.key].word);
    ValidateOutcome(s.sh, t, l);
    WritesOf(s, t);
  }

  lemma ReadsOf(s: State, t: nat)
    requires Inv(s) && t < |s.thr| && s.thr[t].pc.Validate?
    ensures forall i :: 0 <= i < |s.thr[t].rset| ==> s.thr[t].rset[i].key < |s.sh.table|
    ensures 0 <= s.thr[t].entry < |s.sh.log|
  {
    hide SharedInv, LagInv;
    assert LocalInv(s.sh, t, s.thr[t]);
  }

  lemma ValidatorHolds(l: Local, k: nat)
    requires l.pc.Validate?
    ensures HeldBy(l, k) <==> SearchWrite(l.wset, k) >= 0
  {
    var i := SearchWrite(l.wset, k);
    assert i >= 0 ==> l.wset[i].key == k;
  }

  lemma SameVersion(v: Tidword, w: Tidword)
    ensures Ver(v) == Ver(w) <==> v.epoch == w.epoch && v.tid == w.tid
  {
  }

  lemma ValidateOutcome(sh: Shared, t: nat, l: Local)
    requires l.pc.Validate? && l.pc.i < |l.rset| && l.rset[l.pc.i].key < |sh.table| && 0 <= l.entry < |sh.log|
    requires l.status.InFlight?
    ensures var r, p := l.rset[l.pc.i], TickValidate(sh, l, l.pc.i);
            var check := sh.table[r.key].word;
            && p.sh.table == sh.table
            && (p.l.status.Aborted? <==> r.word.epoch != check.epoch || r.word.tid != check.tid
                                         || (check.lock && SearchWrite(l.wset, r.key) < 0))
            && (!p.l.status.Aborted? ==> p.l.pc == Validate(l.pc.i + 1))
  {
    hide SearchWrite;
  }

  // ----- aborts -----

  /** No transaction is aborted without a reason: one step before, the executor checks a read-set element that has been
      overwritten or that another executor holds, or the word that it loaded last for a lock was locked, by another
      executor that held the record at that load. */
  lemma AbortHasCause(s0: State, steps: seq<Step>, step: Step, t: nat) returns (m: nat)
    requires Start(s0) && t < |s0.thr| && |Run(s0, steps).thr| == |s0.thr| == |Next(Run(s0, steps), step).thr|
    requires !Run(s0, steps).thr[t].status.Aborted? && Next(Run(s0, steps), step).thr[t].status.Aborted?
    ensures step.t == t && Cause(s0, steps + [step], m, t)
    ensures Unmoved(s0, steps, m, t)
  {
    hide Start, Run, Next, LastLoad, HeldByOther, FindsStale;
    var s := Run(s0, steps);
    RunKeeps(s0, steps);
    Reaches(s0, steps);
    AbortingStep(s, step, t);
    assert (steps + [step])[..|steps|] == steps;
    if s.thr[t].pc.LockTry? {
      m := LockCause(s0, steps, t);
      assert (steps + [step])[..m] == steps[..m];
    } else {
      m := |steps|;
      assert FindsStale(s, t) by { StaleCause(s0, s, t); }
    }
  }

  lemma AbortingStep(s: State, step: Step, t: nat)
    requires t < |s.thr| && |Next(s, step).thr| == |s.thr|
    requires !s.thr[t].status.Aborted? && Next(s, step).thr[t].status.Aborted?
    ensures step == Step(t, Tick)
    ensures s.thr[t].pc.LockTry? || (s.thr[t].pc.Validate? && s.thr[t].pc.i < |s.thr[t].rset|)
  {
    hide SortByKey, SearchRead, SearchWrite, TickPair;
    if step.t == t && Enabled(s.sh, t, s.thr[t], step.a) && step.a.Tick? {
      TickAborts(s.sh, t, s.thr[t]);
    }
  }

  lemma TickAborts(sh: Shared, t: nat, l: Local)
    requires TickEnabled(sh, t, l) && !l.status.Aborted? && TickPair(sh, t, l).l.status.Aborted?
    ensures l.pc.LockTry? || (l.pc.Validate? && l.pc.i < |l.rset|)
  {
    hide Puts, CommitWord, Max, SearchWrite, Over, OverAll, Bases;
  }

  lemma StaleCause(s0: State, s: State, t: nat)
    requires Reachable(s0, s) && t < |s.thr| && s.thr[t].pc.Validate? && s.thr[t].pc.i < |s.thr[t].rset|
    requires |Next(s, Step(t, Tick)).thr| == |s.thr| && Next(s, Step(t, Tick)).thr[t].status.Aborted?
    ensures FindsStale(s, t)
  {
    hide Reachable, Next, Stale;
    RejectedIffStale(s0, s, t);
  }

  lemma LockCause(s0: State, steps: seq<Step>, t: nat) returns (m: nat)
    requires Start(s0) && t < |s0.thr| && |Run(s0, steps).thr| == |s0.thr| && Run(s0, steps).thr[t].pc.LockTry?
    requires var s' := Next(Run(s0, steps), Step(t, Tick)); |s'.thr| == |s0.thr| && s'.thr[t].status.Aborted?
    ensures m < |steps| && steps[m].t == t && FindsLocked(Run(s0, steps[..m]), t)
    ensures Unmoved(s0, steps, m, t)
  {
    hide Start, Run, Next, HeldByOther;
    var i, k, w;
    m, i, k, w := NoWaitLocking(s0, steps, t);
  }
}
