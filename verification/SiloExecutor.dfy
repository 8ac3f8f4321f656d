/// The executor's code, run while any number of other executors run.
///
/// Between any two accesses to shared memory, `Interfere` lets the others take any number of steps of the
/// protocol. Each method is proved to take only steps of the protocol itself, so whatever holds of every run
/// (see SiloTheorems) holds of every execution of this code.

module SiloExecutor {
  import opened Tidwords
  import opened Silo
  import opened SiloInvariant
  import opened SiloSteps
  import opened SiloRuns
  import opened SiloRefusals
  import opened SiloTraces
  import SiloTransfer
  import opened SiloClients
  import opened Amounts

  /** The memory that the executors share. */
  class World {
    const table: array<Tuple>
    var epoch: EpochField
    var local: seq<EpochField>
    ghost const start: State
    ghost var trace: seq<Step>
    ghost var st: State

    ghost predicate Valid()
      reads this, table
    {
      && Reached(start, trace, st) && Inv(st)
      && table[..] == st.sh.table && epoch == st.sh.epoch && local == st.sh.local
    }

    /** A freshly built database. */
    constructor (tuples: seq<Tuple>, slots: seq<EpochField>, e: EpochField, ghost s: State)
      requires Start(s) && s.sh.table == tuples && s.sh.local == slots && s.sh.epoch == e
      ensures Valid() && fresh(table) && start == st == s && trace == []
    {
      table := new Tuple[|tuples|](i requires 0 <= i < |tuples| => tuples[i]);
      epoch, local := e, slots;
      start, st, trace := s, s, [];
      new;
      StartInv(s);
    }

    /** Records that executor `t` has taken its next step. */
    ghost method Advance(t: nat, a: Action)
      requires Reached(start, trace, st) && Inv(st) && t < |st.thr| && Enabled(st.sh, t, st.thr[t], a)
      modifies this`st, this`trace
      ensures Reached(start, trace, st) && Inv(st)
      ensures trace == old(trace) + [Step(t, a)] && forall i :: 0 <= i < |old(trace)| ==> trace[i] == old(trace)[i]
      ensures |st.thr| == |old(st).thr|
      ensures Pair(st.sh, st.thr[t]) == Act(old(st).sh, t, old(st).thr[t], a)
      ensures forall m: nat :: OwnCalls(start, old(trace), m, t) && CallsFrom(old(st), Step(t, a)) ==>
                OwnCalls(start, trace, m, t)
      ensures a.Tick? || a.Abort? || a.Leader? ==> CallsFrom(old(st), Step(t, a))
      ensures var was := old(st).thr[t];
              if a.Tick? && was.pc.Choose?
              then was.entry >= 0 && was.entry !in CommitsBy(old(st).sh.log, t)
                   && CommitsBy(st.sh.log, t) == CommitsBy(old(st).sh.log, t) + {was.entry}
              else CommitsBy(st.sh.log, t) == CommitsBy(old(st).sh.log, t)
    {
      hide Inv, OwnCalls, CallsFrom, Act, Enabled, Start, Run, Next, CommitsBy;
      StepCommits(st, t, a, t);
      forall m: nat | OwnCalls(start, trace, m, t) && CallsFrom(st, Step(t, a))
        ensures OwnCalls(start, trace + [Step(t, a)], m, t)
      {
        OwnCall(start, trace, Step(t, a), m);
      }
      if a.Tick? || a.Abort? || a.Leader? {
        InnerStep(st, t, a);
      }
      NextKeeps(st, Step(t, a));
      ReachedNext(start, trace, st, Step(t, a));
      NextIs(st, t, a);
      trace := trace + [Step(t, a)];
      st := Next(st, Step(t, a));
    }

    /** Other executors may run here: a caller learns only that they took steps of the protocol. */
    method Interfere(ghost t: nat)
      requires Valid()
      modifies this, table
      ensures Valid() && OthersRan(old(trace), trace, t)
    {
    }
  }

  /** `TxnExecutor`. */
  class Executor {
    const w: World
    const thid: nat
    const writeVal: Value
    var readSet: seq<ReadElement>
    var writeSet: seq<WriteElement>
    var status: Status
    var mrctid: Tidword
    var maxRset: Tidword
    var maxWset: Tidword
    ghost var mark: nat                // from here on, every call of this executor is one of a transfer
    ghost var commits: set<nat>        // the log positions of what it has committed

    ghost function Me(): Local
      reads this, w
      requires thid < |w.st.thr|
    {
      w.st.thr[thid]
    }

    /** The fields are what the protocol says they are. */
    ghost predicate Valid()
      reads this, w, w.table
    {
      && w.Valid() && thid < |w.st.thr|
      && Me().rset == readSet && Me().wset == writeSet && Me().status == status && Me().dflt == writeVal
      && Me().mrctid == mrctid && Me().maxr == maxRset && Me().maxw == maxWset
      && OwnCalls(w.start, w.trace, mark, thid) && commits == CommitsBy(w.st.sh.log, thid)
    }

    /** Since `trace`, no other executor has taken a step. */
    ghost predicate Alone(trace: seq<Step>)
      reads this, w
    {
      forall i :: |trace| <= i < |w.trace| ==> w.trace[i].t == thid
    }

    /** Since step `from`, the executor has loaded a word that gives it a reason to abort. */
    ghost predicate HasCause(from: nat)
      reads this, w
    {
      Caused(w.start, w.trace, from, thid)
    }

    /** The steps recorded so far, with whatever was added since `trace`. */
    ghost predicate Went(trace: seq<Step>)
      reads w
    {
      |trace| <= |w.trace| && forall i :: 0 <= i < |trace| ==> w.trace[i] == trace[i]
    }

    constructor (world: World, t: nat, dflt: Value)
      requires world.Valid() && t < |world.st.thr|
      requires var l := world.st.thr[t];
               l == Local(Ready, InFlight, [], [], ZERO, ZERO, ZERO, dflt, [], [], [], [], -1)
      ensures Valid() && w == world && thid == t
    {
      w, thid, writeVal := world, t, dflt;
      readSet, writeSet, status := [], [], InFlight;
      mrctid, maxRset, maxWset := ZERO, ZERO, ZERO;
      mark, commits := |world.trace|, CommitsBy(world.st.sh.log, t);
    }

    /** Records that a client has called the executor. */
    ghost method Called(a: Action)
      requires w.Valid() && thid < |w.st.thr| && Enabled(w.st.sh, thid, Me(), a)
      requires OwnCalls(w.start, w.trace, mark, thid)
      modifies this`mark, w`st, w`trace
      ensures Reached(w.start, w.trace, w.st) && Inv(w.st) && w.trace == old(w.trace) + [Step(thid, a)]
      ensures |w.st.thr| == |old(w.st).thr| && Pair(w.st.sh, Me()) == Act(old(w.st).sh, thid, old(Me()), a)
      ensures OwnCalls(w.start, w.trace, mark, thid) && KeepsMark(old(w.st), Step(thid, a), old(mark), mark)
      ensures a != Tick ==> CommitsBy(w.st.sh.log, thid) == CommitsBy(old(w.st).sh.log, thid)
    {
      hide Inv, CallsFrom, Act, Enabled, CommitsBy;
      var proper := CallsFrom(w.st, Step(thid, a));
      w.Advance(thid, a);
      if !proper {
        mark := |w.trace|;
      }
    }

    method Yield()
      requires Valid()
      modifies w, w.table
      ensures Valid() && Me() == old(Me()) && Went(old(w.trace)) && |w.local| == |old(w.local)|
      ensures Alone(old(w.trace)) ==> w.st == old(w.st) && w.table[..] == old(w.table[..])
    {
      hide Inv, Run, Start, CommitsBy, OwnCalls;
      RunLength(w.start, w.trace);
      InvShape(w.st, thid);
      w.Interfere(thid);
      OthersKeep(w.start, old(w.trace), w.trace, thid);
      OthersCall(w.start, old(w.trace), w.trace, mark, thid);
      OthersCommits(w.start, old(w.trace), w.trace, thid);
      if Alone(old(w.trace)) {
        NobodyMoved(old(w.trace), w.trace, thid);
      }
      InvShape(w.st, thid);
    }

    /** `begin`. */
    method Begin()
      requires Valid() && Me().pc.Ready?
      modifies this`mark, this`status, this`maxWset, this`maxRset, w`st, w`trace
      ensures KeepsMark(old(w.st), Step(thid, Action.Begin), old(mark), mark)
      ensures Valid() && Me().pc.Ready? && Went(old(w.trace)) && w.st.sh == old(w.st).sh
      ensures status.InFlight? && maxWset == maxRset == ZERO
    {
      hide Inv, CommitsBy;
      status, maxWset, maxRset := InFlight, ZERO, ZERO;
      Called(Action.Begin);
    }

    method SearchReadSet(key: nat) returns (i: int)
      ensures i == SearchRead(readSet, key)
    {
      i := 0;
      while i < |readSet|
        invariant 0 <= i <= |readSet|
        invariant SearchRead(readSet[..i], key) < 0
      {
        assert readSet[..i + 1][..i] == readSet[..i];
        if readSet[i].key == key {
          FirstRead(readSet, key, i);
          return;
        }
        i := i + 1;
      }
      assert readSet[..|readSet|] == readSet;
      i := -1;
    }

    method SearchWriteSet(key: nat) returns (i: int)
      ensures i == SearchWrite(writeSet, key)
    {
      i := 0;
      while i < |writeSet|
        invariant 0 <= i <= |writeSet|
        invariant SearchWrite(writeSet[..i], key) < 0
      {
        assert writeSet[..i + 1][..i] == writeSet[..i];
        if writeSet[i].key == key {
          FirstWrite(writeSet, key, i);
          return;
        }
        i := i + 1;
      }
      assert writeSet[..|writeSet|] == writeSet;
      i := -1;
    }

    /** `read`. The source spins while the record is locked or changing; `patience` bounds the number of
        rounds. When it runs out, the call is left where it is, in the middle of its loop. One round is enough if the
        record is free and nobody else moves. */
    method Read(key: nat, patience: nat) returns (done: bool)
      requires Valid() && Me().pc.Ready? && key < w.table.Length
      modifies this`mark, this`readSet, w, w.table
      ensures KeepsMark(old(w.st), Step(thid, Action.Read(key)), old(mark), mark)
      ensures Valid() && Went(old(w.trace)) && KeepsButReads(old(Me()), Me())
      ensures done ==> Me().pc.Ready? && ReadsKey(old(readSet), writeSet, key, |writeVal|, readSet)
      ensures !done ==> Me().pc.ReadLoad? || Me().pc.ReadCopy?
      ensures Alone(old(w.trace)) && patience > 0 && !old(w.table[key]).word.lock ==> done
      ensures Alone(old(w.trace)) ==>
                w.table[..] == old(w.table[..])
                && (done && |readSet| > |old(readSet)| ==> readSet[|old(readSet)|].word == old(w.table[key]).word)
    {
      hide Inv, Run, Next, Start, OwnCalls, CommitsBy;
      var i := SearchReadSet(key);
      var j := SearchWriteSet(key);
      assert w.table.Length == |w.st.sh.table|;
      Called(Action.Read(key));
      if i >= 0 || j >= 0 {
        return true;
      }
      Yield();
      done := Spin(key, patience);
    }

    /** The loads and the loop of `read`. */
    method Spin(key: nat, patience: nat) returns (done: bool)
      requires Valid() && Me().pc == ReadLoad(key) && key < w.table.Length
      modifies this`readSet, w, w.table
      ensures Valid() && Went(old(w.trace)) && KeepsButReads(old(Me()), Me())
      ensures done ==> Me().pc.Ready? && Appended(old(readSet), key, |writeVal|, readSet)
      ensures !done ==> (Me().pc.ReadLoad? || Me().pc.ReadCopy?) && readSet == old(readSet)
      ensures Alone(old(w.trace)) && patience > 0 && !old(w.table[key]).word.lock ==> done
      ensures Alone(old(w.trace)) ==>
                w.table[..] == old(w.table[..])
                && (done ==> readSet[|old(readSet)|].word == old(w.table[key]).word)
    {
      hide Inv, Run, Next, Start, OwnCalls, CommitsBy, World.Valid;
      var expected := LoadForRead(key);
      var rounds := patience;
      done := false;
      while rounds > 0 && !done
        invariant Valid() && Went(old(w.trace)) && KeepsButReads(old(Me()), Me())
        invariant rounds <= patience
        invariant !done ==> Me().pc == AfterLoad(key, expected) && readSet == old(readSet)
        invariant done ==> Me().pc.Ready? && Appended(old(readSet), key, |writeVal|, readSet)
                           && readSet[|old(readSet)|].word == expected
        invariant Alone(old(w.trace)) ==> w.table[..] == old(w.table[..]) && expected == old(w.table[key]).word
        invariant Alone(old(w.trace)) && !done ==> rounds == patience || expected.lock
      {
        Yield();
        done, expected := ReadRound(key, expected);
        rounds := rounds - 1;
      }
    }

    /** One round of the loop of `read`: wait for the lock, or copy the record and recheck its word. */
    method ReadRound(key: nat, expected: Tidword) returns (done: bool, next: Tidword)
      requires Valid() && Me().pc == AfterLoad(key, expected)
      modifies this`readSet, w, w.table
      ensures Valid() && Went(old(w.trace)) && KeepsButReads(old(Me()), Me())
      ensures done ==> Me().pc.Ready? && Appended(old(readSet), key, |writeVal|, readSet)
                       && readSet[|old(readSet)|].word == next
      ensures !done ==> Me().pc == AfterLoad(key, next) && readSet == old(readSet)
      ensures done <==> !expected.lock && next == expected
      ensures Alone(old(w.trace)) ==>
                w.table[..] == old(w.table[..]) && key < w.table.Length && next == w.table[key].word
    {
      hide Inv, Run, Next, Start, OwnCalls, CommitsBy;
      done := false;
      if expected.lock {
        next := LoadForRead(key);
      } else {
        var buf := CopyRecord(key, expected);
        Yield();
        next := Recheck(key, expected, buf);
        done := next == expected;
      }
    }

    method LoadForRead(key: nat) returns (word: Tidword)
      requires Valid() && Me().pc == ReadLoad(key)
      modifies w`st, w`trace
      ensures Valid() && Went(old(w.trace)) && Me() == old(Me()).(pc := AfterLoad(key, word))
      ensures key < w.table.Length && word == w.table[key].word
    {
      hide Inv, Run, Next, Start, OwnCalls, CommitsBy;
      NextAccessInRange(w.st, thid);
      word := w.table[key].word;
      w.Advance(thid, Tick);
    }

    /** `memcpy` out of a record, one byte at a time. */
    method CopyRecord(key: nat, expected: Tidword) returns (buf: Value)
      requires Valid() && Me().pc == ReadCopy(key, expected, [])
      modifies w, w.table
      ensures Valid() && Went(old(w.trace)) && Me() == old(Me()).(pc := ReadCopy(key, expected, buf))
      ensures |buf| == |writeVal|
      ensures Alone(old(w.trace)) ==> w.table[..] == old(w.table[..])
    {
      hide Inv, Run, Next, Start, OwnCalls, CommitsBy;
      buf := [];
      InvShape(w.st, thid);
      while |buf| < |writeVal|
        invariant Valid() && Went(old(w.trace)) && |buf| <= |writeVal|
        invariant Me() == old(Me()).(pc := ReadCopy(key, expected, buf))
        invariant Alone(old(w.trace)) ==> w.table[..] == old(w.table[..])
      {
        Yield();
        NextAccessInRange(w.st, thid);
        buf := buf + [w.table[key].val[|buf|]];
        w.Advance(thid, Tick);
      }
    }

    method Recheck(key: nat, expected: Tidword, buf: Value) returns (check: Tidword)
      requires Valid() && Me().pc == ReadCopy(key, expected, buf) && |buf| == |writeVal|
      modifies this`readSet, w`st, w`trace
      ensures Valid() && Went(old(w.trace)) && KeepsButReads(old(Me()), Me())
      ensures if check == expected then Me().pc.Ready? && readSet == old(readSet) + [ReadElement(key, buf, expected)]
              else Me().pc == AfterLoad(key, check) && readSet == old(readSet)
      ensures key < w.table.Length && check == w.table[key].word
    {
      hide Inv, Run, Next, Start, OwnCalls, CommitsBy;
      NextAccessInRange(w.st, thid);
      check := w.table[key].word;
      w.Advance(thid, Tick);
      if expected == check {
        readSet := readSet + [ReadElement(key, buf, expected)];
      }
    }

    /** `write`: a key that is already in the write set keeps its first value. */
    method Write(key: nat, val: Value)
      requires Valid() && Me().pc.Ready? && key < w.table.Length && |val| <= |writeVal|
      modifies this`mark, this`writeSet, w`st, w`trace
      ensures KeepsMark(old(w.st), Step(thid, Action.Write(key, val)), old(mark), mark)
      ensures Valid() && Went(old(w.trace)) && Me().pc.Ready? && w.st.sh == old(w.st).sh
      ensures if exists j :: 0 <= j < |old(writeSet)| && old(writeSet)[j].key == key then writeSet == old(writeSet)
              else writeSet == old(writeSet) + [WriteElement(key, if val == [] then writeVal else val)]
    {
      hide Inv, Run, Next, Start, OwnCalls, CommitsBy;
      InvShape(w.st, thid);
      var i := SearchWriteSet(key);
      assert w.table.Length == |w.st.sh.table|;
      Called(Action.Write(key, val));
      if i < 0 {
        writeSet := writeSet + [WriteElement(key, if val == [] then writeVal else val)];
      }
    }

    /** `lockWriteSet`: no-wait locking in key order. A lock that somebody else holds aborts the transaction and
        gives back exactly the locks taken so far, and nothing else does; a lost race for a free lock is tried again,
        at most `patience` times per record. One try is enough if the records are free and nobody else moves. */
    method LockWriteSet(patience: nat) returns (done: bool)
      requires Valid() && status.InFlight? && Me().pc == LockNext(0, |writeSet|)
      modifies this`status, this`maxWset, w, w.table
      ensures Valid() && Went(old(w.trace)) && KeepsSets(old(Me()), Me())
      ensures done ==> if status.Aborted? then Me().pc.Failed? else Me().pc.EpochLoad? && status.InFlight?
      ensures !done ==> Me().pc.LockTry?
      ensures done && status.Aborted? ==> HasCause(|old(w.trace)|)
      ensures Alone(old(w.trace)) && patience > 0 && AllFree(old(w.table[..]), writeSet) ==>
                done && status.InFlight? && OnlyLocked(old(w.table[..]), w.table[..], writeSet, |writeSet|)
    {
      hide Inv, Run, Next, Start, OwnCalls, CommitsBy, World.Valid, OnlyLocked, AllFree, Caused, Loads;
      var i := 0;
      NothingLocked(w.table[..], writeSet);
      while i < |writeSet|
        invariant Valid() && Went(old(w.trace)) && KeepsSets(old(Me()), Me()) && status.InFlight?
        invariant 0 <= i <= |writeSet| && Me().pc == LockNext(i, |writeSet|)
        invariant Alone(old(w.trace)) && patience > 0 && AllFree(old(w.table[..]), writeSet) ==>
                    OnlyLocked(old(w.table[..]), w.table[..], writeSet, i)
      {
        ghost var since := |w.trace|;
        done := LockOne(i, patience, old(w.table[..]));
        if !done {
          return;
        }
        if status.Aborted? {
          ghost var trace := w.trace;
          if i != 0 {
            UnlockWriteSet(i);
          }
          CausedStays(w.start, trace, w.trace, since, |old(w.trace)|, thid);
          return;
        }
        i := i + 1;
      }
      done := true;
    }

    /** Element `i`: one load, and the inner loop. `before` is the table at the start. */
    method LockOne(i: nat, patience: nat, ghost before: seq<Tuple>) returns (done: bool)
      requires Valid() && status.InFlight? && Me().pc == LockLoad(i) && i < |writeSet|
      modifies this`status, this`maxWset, w, w.table
      ensures Valid() && Went(old(w.trace)) && KeepsSets(old(Me()), Me())
      ensures done ==> if status.Aborted? then Me().pc == (if i > 0 then UnlockLoad(0, i) else Failed)
                       else status.InFlight? && Me().pc == LockNext(i + 1, |writeSet|)
      ensures !done ==> Me().pc.LockTry?
      ensures done && status.Aborted? ==> HasCause(|old(w.trace)|)
      ensures Alone(old(w.trace)) && patience > 0 && AllFree(before, writeSet)
              && OnlyLocked(before, old(w.table[..]), writeSet, i) ==>
                done && status.InFlight? && OnlyLocked(before, w.table[..], writeSet, i + 1)
    {
      hide Inv, Run, Next, Start, OwnCalls, CommitsBy, World.Valid, OnlyLocked, Caused, Loads;
      Yield();
      ghost var table := w.table[..];
      var expected; ghost var m;
      expected, m := LoadForLock(i);
      done := TryLock(i, expected, patience, m);
      if done && status.Aborted? {
        CausedStays(w.start, w.trace, w.trace, m, |old(w.trace)|, thid);
      }
      if Alone(old(w.trace)) && patience > 0 && AllFree(before, writeSet) && OnlyLocked(before, table, writeSet, i) {
        WriteKeys();
        NextIsFree(before, table, writeSet, i);
        LockOneMore(before, table, writeSet, i, expected.(lock := true));
      }
    }

    lemma StartsWell()
      requires w.Valid()
      ensures Start(w.start)
    {
    }

    lemma WriteKeys()
      requires Valid()
      ensures DistinctWrites(writeSet) && forall x :: 0 <= x < |writeSet| ==> writeSet[x].key < w.table.Length
    {
      hide Inv, Run, Start, OwnCalls, CommitsBy;
      WritesOf(w.st, thid);
    }

    method LoadForLock(i: nat) returns (word: Tidword, ghost m: nat)
      requires Valid() && Me().pc == LockLoad(i)
      modifies w`st, w`trace
      ensures Valid() && Went(old(w.trace)) && i < |writeSet| && Me() == old(Me()).(pc := LockTry(i, word))
      ensures writeSet[i].key < w.table.Length && word == w.table[writeSet[i].key].word
      ensures m == |old(w.trace)| < |w.trace| && Loads(w.start, w.trace, m, thid, i, writeSet[i].key, word)
    {
      hide Inv, Run, Next, Start, OwnCalls, CommitsBy, Loads;
      NextAccessInRange(w.st, thid);
      word, m := w.table[writeSet[i].key].word, |w.trace|;
      LoadsNow(w.start, w.trace, w.st, Step(thid, Tick), i, writeSet[i].key, word);
      w.Advance(thid, Tick);
    }

    /** The inner loop of `lockWriteSet` for element `i`, of which `word` was loaded by step `from`. */
    method TryLock(i: nat, word: Tidword, patience: nat, ghost from: nat) returns (done: bool)
      requires Valid() && status.InFlight? && i < |writeSet| && Me().pc == LockTry(i, word)
      requires from < |w.trace| && Loads(w.start, w.trace, from, thid, i, writeSet[i].key, word)
      modifies this`status, this`maxWset, w, w.table
      ensures Valid() && Went(old(w.trace)) && KeepsSets(old(Me()), Me())
      ensures done ==> if status.Aborted? then Me().pc == (if i > 0 then UnlockLoad(0, i) else Failed)
                       else status.InFlight? && Me().pc == LockNext(i + 1, |writeSet|)
      ensures !done ==> Me().pc.LockTry?
      ensures done && status.Aborted? ==> HasCause(from)
      ensures Alone(old(w.trace)) && patience > 0 && !word.lock && writeSet[i].key < w.table.Length
              && word == old(w.table[writeSet[i].key].word) ==>
                done && status.InFlight? && Relocked(old(w.table[..]), w.table[..], writeSet[i].key, word)
    {
      hide Inv, Run, Next, Start, OwnCalls, CommitsBy, World.Valid, Caused, Loads;
      var expected := word;
      var rounds := patience;
      done := false;
      ghost var m := from;
      while rounds > 0 && !done
        invariant Valid() && Went(old(w.trace)) && KeepsSets(old(Me()), Me())
        invariant from <= m < |w.trace|
        invariant !done ==> Loads(w.start, w.trace, m, thid, i, writeSet[i].key, expected)
        invariant done && status.Aborted? ==> HasCause(from)
        invariant !done ==> status.InFlight? && Me().pc == LockTry(i, expected)
        invariant done ==> if status.Aborted? then Me().pc == (if i > 0 then UnlockLoad(0, i) else Failed)
                           else status.InFlight? && Me().pc == LockNext(i + 1, |writeSet|)
        invariant Alone(old(w.trace)) && !word.lock && writeSet[i].key < w.table.Length
                  && word == old(w.table[writeSet[i].key].word) ==>
                    if done then status.InFlight? && Relocked(old(w.table[..]), w.table[..], writeSet[i].key, word)
                    else rounds == patience && expected == word && w.table[..] == old(w.table[..])
      {
        ghost var trace := w.trace;
        Yield();
        LoadsStays(w.start, trace, w.trace, m, thid, i, writeSet[i].key, expected);
        if expected.lock {
          StartsWell();
          LockedIsCause(w.start, w.trace, m, thid, i, writeSet[i].key, expected);
          CauseSince(w.start, w.trace, m, from, thid);
        }
        trace := w.trace;
        ghost var seen := expected;
        done, expected := TryOnce(i, expected);
        if seen.lock {
          CausedStays(w.start, trace, w.trace, from, from, thid);
        }
        m := |trace|;
        rounds := rounds - 1;
      }
    }

    /** The test of the lock bit and, if it is clear, one compare-and-swap. */
    method TryOnce(i: nat, expected: Tidword) returns (done: bool, next: Tidword)
      requires Valid() && status.InFlight? && i < |writeSet| && Me().pc == LockTry(i, expected)
      modifies this`status, this`maxWset, w`st, w`trace, w.table
      ensures Valid() && Went(old(w.trace)) && KeepsSets(old(Me()), Me())
      ensures done ==> if status.Aborted? then Me().pc == (if i > 0 then UnlockLoad(0, i) else Failed)
                       else status.InFlight? && Me().pc == LockNext(i + 1, |writeSet|)
      ensures !done ==> status.InFlight? && Me().pc == LockTry(i, next)
      ensures |old(w.trace)| < |w.trace|
      ensures !done ==> Loads(w.start, w.trace, |old(w.trace)|, thid, i, writeSet[i].key, next)
      ensures done <==> expected.lock || next == expected
      ensures status.Aborted? <==> expected.lock
      ensures writeSet[i].key < w.table.Length && next == old(w.table[writeSet[i].key].word)
      ensures if expected.lock || next != expected then w.table[..] == old(w.table[..])
              else Relocked(old(w.table[..]), w.table[..], writeSet[i].key, expected)
    {
      hide Inv, Run, Next, Start, OwnCalls, CommitsBy, Loads;
      NextAccessInRange(w.st, thid);
      var k := writeSet[i].key;
      next := w.table[k].word;
      LoadsNow(w.start, w.trace, w.st, Step(thid, Tick), i, k, next);
      w.Advance(thid, Tick);
      if expected.lock {
        status := Aborted;
        done := true;
      } else if next == expected {
        w.table[k] := w.table[k].(word := expected.(lock := true));
        maxWset := Max(maxWset, expected);
        done := true;
      } else {
        done := false;
      }
    }

    /** `unlockWriteSet`: element by element, a load and a store. */
    method UnlockWriteSet(end: nat)
      requires Valid() && Me().pc == UnlockLoad(0, end)
      modifies w, w.table
      ensures Valid() && Went(old(w.trace)) && Me() == old(Me()).(pc := Failed)
    {
      hide Inv, Run, Next, Start, OwnCalls, CommitsBy;
      InvShape(w.st, thid);
      var i := 0;
      while i < end
        invariant Valid() && Went(old(w.trace)) && 0 <= i <= end <= |writeSet|
        invariant Me() == old(Me()).(pc := if i < end then UnlockLoad(i, end) else Failed)
      {
        Yield();
        var desired := LoadForUnlock(i, end);
        Yield();
        StoreUnlocked(i, end, desired);
        i := i + 1;
      }
    }

    method LoadForUnlock(i: nat, end: nat) returns (desired: Tidword)
      requires Valid() && Me().pc == UnlockLoad(i, end)
      modifies w`st, w`trace
      ensures Valid() && Went(old(w.trace)) && Me() == old(Me()).(pc := UnlockStore(i, end, desired))
    {
      hide Inv, Run, Next, Start, OwnCalls, CommitsBy;
      NextAccessInRange(w.st, thid);
      desired := w.table[writeSet[i].key].word.(lock := false);
      w.Advance(thid, Tick);
    }

    method StoreUnlocked(i: nat, end: nat, desired: Tidword)
      requires Valid() && Me().pc == UnlockStore(i, end, desired) && i < end <= |writeSet|
      modifies w`st, w`trace, w.table
      ensures Valid() && Went(old(w.trace))
      ensures Me() == old(Me()).(pc := if i + 1 < end then UnlockLoad(i + 1, end) else Failed)
    {
      hide Inv, Run, Next, Start, OwnCalls, CommitsBy;
      NextAccessInRange(w.st, thid);
      var k := writeSet[i].key;
      w.Advance(thid, Tick);
      w.table[k] := w.table[k].(word := desired);
    }

    /** `validationPhase`. */
    method ValidationPhase(patience: nat) returns (done: bool, ok: bool)
      requires Valid() && Me().pc.Ready? && status.InFlight?
      modifies this`mark, this`writeSet, this`status, this`maxWset, this`maxRset, w, w.table
      ensures KeepsMark(old(w.st), Step(thid, Validation), old(mark), mark)
      ensures Valid() && Went(old(w.trace)) && writeSet == SortByKey(old(writeSet))
      ensures done ==> if ok then Me().pc.Choose? else Me().pc.Failed?
      ensures !done ==> Me().pc.LockTry?
      ensures done && !ok ==> HasCause(|old(w.trace)|)
      ensures Alone(old(w.trace)) && patience > 0 && AllFree(old(w.table[..]), old(writeSet))
              && AllCurrent(readSet, old(w.table[..]), []) ==>
                done && ok
    {
      hide Inv, Run, Next, Start, OwnCalls, CommitsBy, World.Valid, SortByKey, AllFree, AllCurrent, OnlyLocked, Caused;
      ghost var before := w.table[..];
      CallValidation();
      FreeWhenSorted(before, old(writeSet));
      ghost var from := |w.trace|;
      done := LockWriteSet(patience);
      ok := false;
      if !done || status.Aborted? {
        if done {
          CausedStays(w.start, w.trace, w.trace, from, |old(w.trace)|, thid);
        }
        return;
      }
      if OnlyLocked(before, w.table[..], writeSet, |writeSet|) && AllCurrent(readSet, before, []) {
        AllStayCurrent(before, w.table[..], writeSet, readSet);
      }
      from := |w.trace|;
      ok := ValidateReads();
      if !ok {
        CausedStays(w.start, w.trace, w.trace, from, |old(w.trace)|, thid);
      }
    }

    /** `validationPhase` with the write set locked: the epoch, then the reads. */
    method ValidateReads() returns (ok: bool)
      requires Valid() && Me().pc.EpochLoad?
      modifies this`status, this`maxRset, w, w.table
      ensures Valid() && Went(old(w.trace)) && KeepsUntilChoice(old(Me()), Me())
      ensures if ok then Me().pc.Choose? else Me().pc.Failed?
      ensures !ok ==> HasCause(|old(w.trace)|)
      ensures Alone(old(w.trace)) && AllCurrent(readSet, old(w.table[..]), writeSet) ==> ok
    {
      hide Inv, Run, Next, Start, OwnCalls, CommitsBy, World.Valid, AllCurrent, Caused;
      Yield();
      var e := LoadEpoch();
      Yield();
      StoreEpoch(e);
      ghost var from := |w.trace|;
      ok := CheckReads();
      if !ok {
        CausedStays(w.start, w.trace, w.trace, from, |old(w.trace)|, thid);
      }
    }

    method CallValidation()
      requires Valid() && Me().pc.Ready? && status.InFlight?
      modifies this`mark, this`writeSet, w`st, w`trace
      ensures KeepsMark(old(w.st), Step(thid, Validation), old(mark), mark)
      ensures Valid() && Went(old(w.trace)) && status.InFlight?
      ensures writeSet == SortByKey(old(writeSet)) && Me().pc == LockNext(0, |writeSet|)
      ensures |w.trace| == |old(w.trace)| + 1 && w.trace[|old(w.trace)|].t == thid
    {
      hide Inv, Run, Next, Start, OwnCalls, CommitsBy;
      writeSet := SortByKey(writeSet);
      Called(Validation);
    }

    /** The serialization point. */
    method LoadEpoch() returns (e: EpochField)
      requires Valid() && Me().pc.EpochLoad?
      modifies w`st, w`trace
      ensures Valid() && Went(old(w.trace)) && KeepsUntilChoice(old(Me()), Me()) && Me().pc == EpochStore(e)
    {
      hide Inv, Run, Next, Start, OwnCalls, CommitsBy;
      NextAccessInRange(w.st, thid);
      e := w.epoch;
      w.Advance(thid, Tick);
    }

    method StoreEpoch(e: EpochField)
      requires Valid() && Me().pc == EpochStore(e)
      modifies w`st, w`trace, w`local
      ensures Valid() && Went(old(w.trace)) && KeepsUntilChoice(old(Me()), Me()) && Me().pc == Validate(0)
    {
      hide Inv, Run, Next, Start, OwnCalls, CommitsBy;
      NextAccessInRange(w.st, thid);
      w.Advance(thid, Tick);
      w.local := w.local[thid := e];
    }

    /** The validation loop over the read set; a rejected read gives back the whole write set. A read is rejected only
        if it is stale, and none is if all are current and nobody else moves. */
    method CheckReads() returns (ok: bool)
      requires Valid() && Me().pc == Validate(0)
      modifies this`status, this`maxRset, w, w.table
      ensures Valid() && Went(old(w.trace)) && KeepsUntilChoice(old(Me()), Me())
      ensures if ok then Me().pc.Choose? else Me().pc.Failed?
      ensures !ok ==> HasCause(|old(w.trace)|)
      ensures Alone(old(w.trace)) && AllCurrent(readSet, old(w.table[..]), writeSet) ==> ok
    {
      hide Inv, Run, Next, Start, OwnCalls, CommitsBy, World.Valid, Caused, Current;
      var i := 0;
      while i < |readSet|
        invariant Valid() && Went(old(w.trace)) && KeepsUntilChoice(old(Me()), Me())
        invariant 0 <= i <= |readSet| && Me().pc == Validate(i)
        invariant Alone(old(w.trace)) && AllCurrent(readSet, old(w.table[..]), writeSet) ==>
                    w.table[..] == old(w.table[..])
      {
        ghost var since := |w.trace|;
        ok := CheckOne(i);
        if !ok {
          CausedStays(w.start, w.trace, w.trace, since, |old(w.trace)|, thid);
          return;
        }
        i := i + 1;
      }
      EndValidation(i);
      ok := true;
    }

    /** Element `i` of the read set; if it is rejected, the whole write set is given back. */
    method CheckOne(i: nat) returns (ok: bool)
      requires Valid() && Me().pc == Validate(i) && i < |readSet|
      modifies this`status, this`maxRset, w, w.table
      ensures Valid() && Went(old(w.trace)) && KeepsUntilChoice(old(Me()), Me())
      ensures if ok then Me().pc == Validate(i + 1) else Me().pc.Failed?
      ensures !ok ==> HasCause(|old(w.trace)|)
      ensures Alone(old(w.trace)) && Current(readSet[i], old(w.table[..]), writeSet) ==>
                ok && w.table[..] == old(w.table[..])
    {
      hide Inv, Run, Next, Start, OwnCalls, CommitsBy, World.Valid, Caused, Current;
      Yield();
      ghost var m := |w.trace|;
      ok := CheckRead(i);
      if !ok {
        ghost var trace := w.trace;
        CauseSince(w.start, trace, m, |old(w.trace)|, thid);
        if writeSet != [] {
          UnlockWriteSet(|writeSet|);
        }
        CausedStays(w.start, trace, w.trace, |old(w.trace)|, |old(w.trace)|, thid);
      }
    }

    method EndValidation(i: nat)
      requires Valid() && Me().pc == Validate(i) && i == |readSet|
      modifies this`status, w`st, w`trace
      ensures Valid() && Went(old(w.trace)) && KeepsUntilChoice(old(Me()), Me()) && Me().pc.Choose?
    {
      hide Inv, Run, Next, Start, OwnCalls, CommitsBy;
      NextAccessInRange(w.st, thid);
      w.Advance(thid, Tick);
      status := Committed;
    }

    lemma CauseOfRejection(i: nat)
      requires Valid() && Me().pc == Validate(i) && i < |readSet|
      ensures !Current(readSet[i], w.table[..], writeSet) ==>
                Cause(w.start, w.trace + [Step(thid, Tick)], |w.trace|, thid)
    {
      hide Inv, Run, Start, OwnCalls, CommitsBy, Cause, FindsStale, Current;
      StaleIff(w.start, w.trace, w.st, thid);
      if FindsStale(w.st, thid) {
        StaleIsCause(w.start, w.trace, w.st, Step(thid, Tick));
      }
    }

    method CheckRead(i: nat) returns (ok: bool)
      requires Valid() && Me().pc == Validate(i) && i < |readSet|
      modifies this`status, this`maxRset, w`st, w`trace
      ensures Valid() && Went(old(w.trace)) && KeepsUntilChoice(old(Me()), Me())
      ensures if ok then Me().pc == Validate(i + 1)
              else Me().pc == if writeSet == [] then Failed else UnlockLoad(0, |writeSet|)
      ensures ok <==> Current(readSet[i], w.table[..], writeSet)
      ensures !ok ==> Cause(w.start, w.trace, |old(w.trace)|, thid)
    {
      hide Inv, Run, Next, Start, OwnCalls, CommitsBy, Cause;
      NextAccessInRange(w.st, thid);
      CauseOfRejection(i);
      var r := readSet[i];
      var check := w.table[r.key].word;
      var mine := SearchWriteSet(r.key);
      w.Advance(thid, Tick);
      if r.word.epoch != check.epoch || r.word.tid != check.tid || (check.lock && mine < 0) {
        status := Aborted;
        ok := false;
      } else {
        maxRset := Max(maxRset, check);
        ok := true;
      }
    }

    /** `writePhase`. `j` is the log position of the transaction: it is committed, with the reads and the writes that
        the executor held. `done` is false, and nothing has happened, when a counter has run out of its field in the
        loaded epoch; there the tid would wrap, and the model stops. */
    method WritePhase() returns (done: bool, ghost j: nat)
      requires Valid() && Me().pc.Choose?
      modifies this`mrctid, this`commits, this`readSet, this`writeSet, w, w.table
      ensures Valid() && Went(old(w.trace)) && thid < |old(w.local)|
      ensures done <==> CountersHaveRoom(old(Me()), old(w.local)[thid])
      ensures done ==> Me().pc.Ready? && readSet == [] && writeSet == []
      ensures done ==> j < |w.st.sh.log| && CommittedAs(w.st.sh.log[j], thid, old(readSet), old(writeSet))
      ensures done ==> j !in old(commits) && commits == old(commits) + {j}
      ensures !done ==> w.st == old(w.st) && w.trace == old(w.trace) && w.local == old(w.local)
                        && commits == old(commits)
    {
      hide Inv, Run, Next, Start, OwnCalls, CommitsBy;
      InvShape(w.st, thid);
      var e := w.local[thid];
      done, j := HasRoom(maxWset, e) && HasRoom(maxRset, e) && HasRoom(mrctid, e), 0;
      if done {
        j := InstallAll();
      }
    }

    method InstallAll() returns (ghost j: nat)
      requires Valid() && Me().pc.Choose? && thid < |w.local| && CountersHaveRoom(Me(), w.local[thid])
      modifies this`mrctid, this`commits, this`readSet, this`writeSet, w, w.table
      ensures Valid() && Went(old(w.trace)) && Me().pc.Ready? && readSet == [] && writeSet == []
      ensures j < |w.st.sh.log| && CommittedAs(w.st.sh.log[j], thid, old(readSet), old(writeSet))
      ensures j !in old(commits) && commits == old(commits) + {j}
    {
      hide Inv, Run, Next, Start, OwnCalls, CommitsBy, World.Valid;
      var e := ChooseTid();
      var i := 0;
      while i < |writeSet|
        invariant Valid() && Went(old(w.trace)) && 0 <= i <= |writeSet| && Me().pc == Install(i, 0)
        invariant readSet == old(readSet) && writeSet == old(writeSet)
        invariant Me().entry == e && e !in old(commits) && commits == old(commits) + {e}
      {
        InstallBytes(i);
        Yield();
        InstallTid(i);
        i := i + 1;
      }
      j := FinishCommit(i);
    }

    /** Cases (a), (b) and (c) of `writePhase`. */
    method ChooseTid() returns (ghost e: nat)
      requires Valid() && Me().pc.Choose? && thid < |w.local| && CountersHaveRoom(Me(), w.local[thid])
      modifies this`mrctid, this`commits, w`st, w`trace
      ensures Valid() && Went(old(w.trace)) && Me().pc == Install(0, 0)
      ensures Me().entry == e && e !in old(commits) && commits == old(commits) + {e}
    {
      hide Inv, Run, Next, Start, OwnCalls, CommitsBy;
      NextAccessInRange(w.st, thid);
      var tidA := Bump(Max(maxWset, maxRset));
      var tidB := Bump(mrctid);
      var tidC := ZERO.(epoch := w.local[thid]);
      var maxtid := Max(Max(tidA, tidB), tidC);
      mrctid := maxtid.(lock := false, latest := true);
      w.Advance(thid, Tick);
      e := Me().entry;
      commits := commits + {e};
    }

    /** `memcpy` into record `i` of the write set, one byte at a time. */
    method InstallBytes(i: nat)
      requires Valid() && Me().pc == Install(i, 0) && i < |writeSet|
      modifies w, w.table
      ensures Valid() && Went(old(w.trace)) && Me() == old(Me()).(pc := Install(i, |writeSet[i].val|))
    {
      hide Inv, Run, Next, Start, OwnCalls, CommitsBy;
      var b := 0;
      while b < |writeSet[i].val|
        invariant Valid() && Went(old(w.trace)) && 0 <= b <= |writeSet[i].val|
        invariant Me() == old(Me()).(pc := Install(i, b))
      {
        Yield();
        InstallByte(i, b);
        b := b + 1;
      }
    }

    method InstallByte(i: nat, b: nat)
      requires Valid() && Me().pc == Install(i, b) && i < |writeSet| && b < |writeSet[i].val|
      modifies w`st, w`trace, w.table
      ensures Valid() && Went(old(w.trace)) && Me() == old(Me()).(pc := Install(i, b + 1))
    {
      hide Inv, Run, Next, Start, OwnCalls, CommitsBy;
      NextAccessInRange(w.st, thid);
      var k := writeSet[i].key;
      w.Advance(thid, Tick);
      w.table[k] := w.table[k].(val := w.table[k].val[b := writeSet[i].val[b]]);
    }

    method InstallTid(i: nat)
      requires Valid() && i < |writeSet| && Me().pc == Install(i, |writeSet[i].val|)
      modifies w`st, w`trace, w.table
      ensures Valid() && Went(old(w.trace)) && Me() == old(Me()).(pc := Install(i + 1, 0))
    {
      hide Inv, Run, Next, Start, OwnCalls, CommitsBy;
      NextAccessInRange(w.st, thid);
      var k := writeSet[i].key;
      w.Advance(thid, Tick);
      w.table[k] := w.table[k].(word := mrctid);
    }

    method FinishCommit(i: nat) returns (ghost j: nat)
      requires Valid() && Me().pc == Install(i, 0) && i == |writeSet|
      modifies this`readSet, this`writeSet, w`st, w`trace
      ensures Valid() && Went(old(w.trace)) && Me().pc.Ready? && readSet == [] && writeSet == []
      ensures j == old(Me().entry)
      ensures j < |w.st.sh.log| && CommittedAs(w.st.sh.log[j], thid, old(readSet), old(writeSet))
    {
      hide Inv, Run, Next, Start, OwnCalls, CommitsBy;
      NextAccessInRange(w.st, thid);
      EntryOf(w.st, thid);
      j := Me().entry;
      w.Advance(thid, Tick);
      readSet, writeSet := [], [];
    }

    /** `abort`, after a validation that returned false. */
    method Abort()
      requires Valid() && Me().pc.Failed?
      modifies this`readSet, this`writeSet, w`st, w`trace
      ensures Valid() && Went(old(w.trace)) && Me().pc.Ready? && readSet == [] && writeSet == []
      ensures w.trace == old(w.trace) + [Step(thid, Action.Abort)]
    {
      hide Inv, Run, Next, Start, OwnCalls, CommitsBy;
      w.Advance(thid, Action.Abort);
      readSet, writeSet := [], [];
    }

    /** `transferWork`. A transfer that succeeds is in the log of committed transactions: it read both balances, and
        wrote what the string views of the new balances give. It is the transfer that was asked for exactly when
        both views are faithful (see `Amounts.Faithful`). It is the only transaction that the call commits, and no other
        outcome commits any. A refused transfer failed its validation for a cause, was aborted, and leaves nothing
        behind. `Suspended` is where this model of the code stops: a spin loop whose patience ran out, or a counter at
        the end of its field. When both accounts are free and nobody else moves, the transfer succeeds unless a counter
        is at its end. */
    method TransferWork(req: Request, patience: nat) returns (result: TransferResult, ghost j: nat)
      requires Valid() && Me().pc.Ready? && readSet == [] && writeSet == [] && |writeVal| == 4
      requires req.from != req.to && req.from < w.table.Length && req.to < w.table.Length
      modifies this, w, w.table
      ensures OwnCalls(w.start, w.trace, |old(w.trace)|, thid)
      ensures Valid() && Went(old(w.trace))
      ensures result.Suspended? ==> SpinsOrStops()
      ensures result.Refused? ==> HasCause(|old(w.trace)|)
      ensures if result.Transferred? then j !in old(commits) && commits == old(commits) + {j}
              else commits == old(commits)
      ensures Alone(old(w.trace)) && patience > 0
              && !old(w.table[req.from]).word.lock && !old(w.table[req.to]).word.lock ==>
                result.Transferred? || (result.Suspended? && Me().pc.Choose?)
      ensures if result.Suspended? then !Me().pc.Ready? else Me().pc.Ready? && readSet == [] && writeSet == []
      ensures result.Refused? ==> EndsInAbort(old(w.trace), w.trace, thid)
      ensures result.Transferred? ==> j < |w.st.sh.log| && Carried(w.st.sh.log[j], thid, Normalise(req), writeVal)
    {
      hide Inv, Run, Next, Start, OwnCalls, CommitsBy, World.Valid, Carried, SortByKey, Puts, Caused, Current;
      mark := |w.trace|;
      OwnNothing(w.start, w.trace, thid);
      var from, to, diff := req.from, req.to, req.diff;
      if from > to {
        from, to, diff := to, from, -diff;
      }
      j, result := 0, Suspended;
      var started := ReadAccounts(from, to, patience);
      if !started {
        return;
      }
      ghost var since := |w.trace|;
      result, j := MoveAmount(from, to, diff, patience);
      if result.Refused? {
        CausedStays(w.start, w.trace, w.trace, since, |old(w.trace)|, thid);
      }
    }

    /** Where the model of the code stops in the middle of a call: in a spin loop, or, after a validation that
        succeeded, only if a counter is at the end of its field. */
    ghost predicate SpinsOrStops()
      reads this, w
      requires thid < |w.st.thr|
    {
      || Me().pc.ReadLoad? || Me().pc.ReadCopy? || Me().pc.LockTry?
      || (Me().pc.Choose? && thid < |w.local| && !CountersHaveRoom(Me(), w.local[thid]))
    }

    /** The writes and the commit, with both accounts in the read set. */
    method MoveAmount(from: nat, to: nat, diff: int, patience: nat) returns (result: TransferResult, ghost j: nat)
      requires Valid() && Me().pc.Ready? && status.InFlight? && writeSet == [] && |writeVal| == 4
      requires from < to < w.table.Length && |readSet| == 2
      requires readSet[0].key == from && |readSet[0].val| == 4 && readSet[1].key == to && |readSet[1].val| == 4
      modifies this, w, w.table
      ensures mark == old(mark)
      ensures Valid() && Went(old(w.trace))
      ensures result.Suspended? ==> SpinsOrStops()
      ensures result.Refused? ==> HasCause(|old(w.trace)|)
      ensures if result.Transferred? then j !in old(commits) && commits == old(commits) + {j}
              else commits == old(commits)
      ensures Alone(old(w.trace)) && patience > 0 && AllCurrent(old(readSet), old(w.table[..]), [])
              && !old(w.table[from]).word.lock && !old(w.table[to]).word.lock ==>
                result.Transferred? || (result.Suspended? && Me().pc.Choose?)
      ensures if result.Suspended? then !Me().pc.Ready? else Me().pc.Ready? && readSet == [] && writeSet == []
      ensures result.Refused? ==> EndsInAbort(old(w.trace), w.trace, thid)
      ensures result.Transferred? ==>
                j < |w.st.sh.log| && Carried(w.st.sh.log[j], thid, Request(from, to, diff), writeVal)
    {
      hide Inv, Run, Next, Start, OwnCalls, CommitsBy, SortByKey, CommittedAs, Carried, Plus, Given, World.Valid;
      hide Caused, Current;
      ghost var gets := readSet;
      WriteAmounts(from, to, diff);
      ghost var puts := writeSet;
      ProperCall(w.st, thid, Validation, Request(from, to, diff));
      ghost var since := |w.trace|;
      result, j := Finish(patience);
      if result.Refused? {
        CausedStays(w.start, w.trace, w.trace, since, |old(w.trace)|, thid);
      }
      if result.Transferred? {
        assert Inv(w.st) by { ValidInv(); }
        CarriedOf(w.st, j, thid, gets, puts, Request(from, to, diff), writeVal);
      }
    }

    /** What the string views of the two new balances give. */
    method WriteAmounts(from: nat, to: nat, diff: int)
      requires Valid() && Me().pc.Ready? && status.InFlight? && writeSet == [] && |writeVal| == 4
      requires from < to < w.table.Length && |readSet| == 2
      requires readSet[0].key == from && |readSet[0].val| == 4 && readSet[1].key == to && |readSet[1].val| == 4
      modifies this`mark, this`writeSet, w`st, w`trace
      ensures mark == old(mark)
      ensures Valid() && Went(old(w.trace)) && Me().pc.Ready?
      ensures writeSet == [WriteElement(from, Given(Plus(readSet[0].val, -diff), writeVal)),
                           WriteElement(to, Given(Plus(readSet[1].val, diff), writeVal))]
    {
      hide Inv, Run, Next, Start, OwnCalls, CommitsBy, CallsFrom, Plus, CStr, World.Valid;
      var fromVal, toVal := readSet[0].val, readSet[1].val;
      ProperCall(w.st, thid, Action.Write(from, CStr(Plus(fromVal, -diff))), Request(from, to, diff));
      Write(from, CStr(Plus(fromVal, -diff)));
      ProperCall(w.st, thid, Action.Write(to, CStr(Plus(toVal, diff))), Request(from, to, diff));
      Write(to, CStr(Plus(toVal, diff)));
    }

    lemma ValidInv()
      requires w.Valid()
      ensures Inv(w.st)
    {
      hide Inv;
    }

    /** Validation followed by the write phase or by an abort. */
    method Finish(patience: nat) returns (result: TransferResult, ghost j: nat)
      requires Valid() && Me().pc.Ready? && status.InFlight?
      modifies this, w, w.table
      ensures KeepsMark(old(w.st), Step(thid, Validation), old(mark), mark)
      ensures Valid() && Went(old(w.trace))
      ensures result.Suspended? ==> SpinsOrStops()
      ensures result.Refused? ==> HasCause(|old(w.trace)|)
      ensures if result.Transferred? then j !in old(commits) && commits == old(commits) + {j}
              else commits == old(commits)
      ensures Alone(old(w.trace)) && patience > 0 && AllFree(old(w.table[..]), old(writeSet))
              && AllCurrent(old(readSet), old(w.table[..]), []) ==>
                result.Transferred? || (result.Suspended? && Me().pc.Choose?)
      ensures if result.Suspended? then !Me().pc.Ready? else Me().pc.Ready? && readSet == [] && writeSet == []
      ensures result.Refused? ==> EndsInAbort(old(w.trace), w.trace, thid)
      ensures result.Transferred? ==>
                j < |w.st.sh.log| && CommittedAs(w.st.sh.log[j], thid, old(readSet), SortByKey(old(writeSet)))
    {
      hide Inv, Run, Next, Start, OwnCalls, CommitsBy, SortByKey, Puts, Caused, AllFree, AllCurrent;
      j, result := 0, Suspended;
      var done, ok := ValidationPhase(patience);
      if done && !ok {
        ghost var trace := w.trace;
        Abort();
        CausedStays(w.start, trace, w.trace, |old(w.trace)|, |old(w.trace)|, thid);
        result := Refused;
      } else if done {
        done, j := WritePhase();
        result := if done then Transferred else Suspended;
      }
    }

    method ReadAccounts(from: nat, to: nat, patience: nat) returns (done: bool)
      requires Valid() && Me().pc.Ready? && readSet == [] && writeSet == []
      requires from < to < w.table.Length
      modifies this`mark, this`status, this`maxWset, this`maxRset, this`readSet, w, w.table
      ensures mark == old(mark)
      ensures Valid() && Went(old(w.trace)) && writeSet == []
      ensures !done ==> Me().pc.ReadLoad? || Me().pc.ReadCopy?
      ensures Alone(old(w.trace)) && patience > 0
              && !old(w.table[from]).word.lock && !old(w.table[to]).word.lock ==>
                done && w.table[..] == old(w.table[..]) && AllCurrent(readSet, w.table[..], [])
      ensures done ==> Me().pc.Ready? && status.InFlight? && |readSet| == 2
                       && readSet[0].key == from && |readSet[0].val| == |writeVal|
                       && readSet[1].key == to && |readSet[1].val| == |writeVal|
    {
      hide Inv, Run, Next, Start, OwnCalls, CommitsBy, CallsFrom, World.Valid;
      ProperCall(w.st, thid, Action.Begin, Request(from, to, 0));
      Begin();
      ProperCall(w.st, thid, Action.Read(from), Request(from, to, 0));
      done := Read(from, patience);
      if done {
        ProperCall(w.st, thid, Action.Read(to), Request(from, to, 0));
        done := Read(to, patience);
      }
    }

    /** `leaderWork`, which thread 0 runs between transactions; `due` stands for the timer. When it is due, the
        epoch advances by one unless some worker has not been seen in it. `done` is false only when the model stops
        at the end of the epoch field, after a complete scan. */
    method LeaderWork(due: bool) returns (done: bool, advanced: bool, ghost now: EpochField)
      requires Valid() && Me().pc.Ready? && thid == 0
      modifies w, w.table
      ensures Valid() && Went(old(w.trace)) && (done ==> Me() == old(Me()))
      ensures !due ==> done && !advanced && w.trace == old(w.trace)
      ensures due && advanced ==> done && w.epoch == now + 1
      ensures due && !advanced ==>
                w.epoch == now && if done then Behind(w.local, now) else now + 1 == EPOCH_LIMIT
    {
      hide Inv, Run, Next, Start, OwnCalls, CommitsBy;
      done, advanced, now := true, false, 0;
      if due {
        var e, loaded := ChkEpochLoaded();
        now := e;
        if loaded {
          done := Increment(e);
          advanced := done;
        }
      }
    }

    /** `chkEpochLoaded`: one load of the global epoch, then one load of each worker's slot. */
    method ChkEpochLoaded() returns (now: EpochField, loaded: bool)
      requires Valid() && Me().pc.Ready? && thid == 0
      modifies w, w.table
      ensures Valid() && Went(old(w.trace))
      ensures if loaded then Me() == old(Me()).(pc := Scan(now, ScanEnd(|w.local|)))
              else Me() == old(Me()) && w.epoch == now && Behind(w.local, now)
    {
      hide Inv, Run, Next, Start, OwnCalls, CommitsBy;
      Yield();
      InvShape(w.st, thid);
      now := w.epoch;
      var n := |w.local|;
      w.Advance(thid, Leader);
      var i := 1;
      while i < n
        invariant Valid() && Went(old(w.trace)) && 1 <= i <= ScanEnd(n) && |w.local| == n
        invariant Me() == old(Me()).(pc := Scan(now, i))
      {
        Yield();
        loaded := CheckSlot(now, i);
        if !loaded {
          return;
        }
        i := i + 1;
      }
      loaded := true;
    }

    method CheckSlot(now: EpochField, i: nat) returns (same: bool)
      requires Valid() && Me().pc == Scan(now, i) && i < |w.local|
      modifies w`st, w`trace
      ensures Valid() && Went(old(w.trace)) && |w.local| == |old(w.local)|
      ensures Me() == old(Me()).(pc := if same then Scan(now, i + 1) else Ready)
      ensures w.epoch == now && (same <==> w.local[i] == now)
    {
      hide Inv, Run, Next, Start, OwnCalls, CommitsBy;
      InvShape(w.st, thid);
      ScanIsNow(w.st, thid);
      same := w.local[i] == now;
      w.Advance(thid, Tick);
    }

    /** `GlobalEpoch.fetch_add(1)`. */
    method Increment(now: EpochField) returns (done: bool)
      requires Valid() && Me().pc == Scan(now, ScanEnd(|w.local|))
      modifies w, w.table
      ensures Valid() && Went(old(w.trace)) && (done <==> now + 1 < EPOCH_LIMIT)
      ensures if done then Me() == old(Me()).(pc := Ready) && w.epoch == now + 1 else w.epoch == now
    {
      hide Inv, Run, Next, Start, OwnCalls, CommitsBy;
      ghost var n := |w.local|;
      InvShape(w.st, thid);
      Yield();
      InvShape(w.st, thid);
      ScanIsNow(w.st, thid);
      done := w.epoch + 1 < EPOCH_LIMIT;
      if done {
        NextAccessInRange(w.st, thid);
        w.epoch := w.epoch + 1;
        w.Advance(thid, Tick);
      }
    }
  }

  /** Some worker's slot is not in the epoch. */
  ghost predicate Behind(local: seq<EpochField>, now: EpochField) {
    exists i :: 1 <= i < |local| && local[i] != now
  }

  lemma ScanIsNow(s: State, t: nat)
    requires Inv(s) && t < |s.thr| && s.thr[t].pc.Scan?
    ensures s.thr[t].pc.now == s.sh.epoch
  {
    hide SharedInv, LocalInv;
  }

  /** No record of the write set is locked. */
  ghost predicate AllFree(table: seq<Tuple>, wset: seq<WriteElement>) {
    forall x :: 0 <= x < |wset| ==> wset[x].key < |table| && !table[wset[x].key].word.lock
  }

  ghost predicate AllCurrent(rset: seq<ReadElement>, table: seq<Tuple>, wset: seq<WriteElement>) {
    forall x :: 0 <= x < |rset| ==> Current(rset[x], table, wset)
  }

  /** The table with record `k`, which had `word`, locked. */
  predicate Relocked(table: seq<Tuple>, table': seq<Tuple>, k: nat, word: Tidword) {
    k < |table| && table' == table[k := table[k].(word := word.(lock := true))]
  }

  lemma NothingLocked(table: seq<Tuple>, wset: seq<WriteElement>)
    ensures OnlyLocked(table, table, wset, 0)
  {
  }

  lemma FreeWhenSorted(table: seq<Tuple>, wset: seq<WriteElement>)
    ensures AllFree(table, wset) ==> AllFree(table, SortByKey(wset))
  {
    hide SortByKey;
    forall x | 0 <= x < |wset| && AllFree(table, wset)
      ensures SortByKey(wset)[x].key < |table| && !table[SortByKey(wset)[x].key].word.lock
    {
      SortMembers(wset, x);
    }
  }

  lemma AllStayCurrent(table: seq<Tuple>, table': seq<Tuple>, wset: seq<WriteElement>, rset: seq<ReadElement>)
    requires OnlyLocked(table, table', wset, |wset|) && AllCurrent(rset, table, [])
    ensures AllCurrent(rset, table', wset)
  {
    hide Current, OnlyLocked;
    forall x | 0 <= x < |rset| ensures Current(rset[x], table', wset) {
      StaysCurrent(table, table', wset, rset[x]);
    }
  }

  /** Where a complete scan ends. */
  function ScanEnd(n: nat): nat {
    if n > 1 then n else 1
  }

  /** Since `trace`, executor `t` has run a transaction of which the last step was to abort it. */
  ghost predicate EndsInAbort(trace: seq<Step>, trace': seq<Step>, t: nat) {
    |trace| < |trace'| && trace'[|trace'| - 1] == Step(t, Action.Abort)
  }

  datatype TransferResult = Transferred | Refused | Suspended

  /** What a completed read adds to the read set. */
  ghost predicate ReadsKey(before: seq<ReadElement>, wset: seq<WriteElement>, key: nat, width: nat,
                           after: seq<ReadElement>) {
    if SearchRead(before, key) >= 0 || SearchWrite(wset, key) >= 0 then after == before
    else Appended(before, key, width, after)
  }

  ghost predicate Appended(before: seq<ReadElement>, key: nat, width: nat, after: seq<ReadElement>) {
    && |after| == |before| + 1 && after[..|before|] == before
    && after[|before|].key == key && |after[|before|].val| == width
  }

  /** Everything but the program counter and the read set. */
  ghost predicate KeepsButReads(l: Local, l': Local) {
    && l'.status == l.status && l'.wset == l.wset && l'.maxw == l.maxw && l'.maxr == l.maxr
    && l'.mrctid == l.mrctid && l'.entry == l.entry
  }

  /** Everything but the program counter, the status, the lock maximum and the recorded words. */
  ghost predicate KeepsSets(l: Local, l': Local) {
    && l'.rset == l.rset && l'.srcs == l.srcs && l'.wset == l.wset && l'.maxr == l.maxr && l'.seen == l.seen
    && l'.mrctid == l.mrctid && l'.entry == l.entry && l'.dflt == l.dflt
  }

  /** The read set, the write set and the last commit TID. */
  ghost predicate KeepsUntilChoice(l: Local, l': Local) {
    l'.rset == l.rset && l'.wset == l.wset && l'.mrctid == l.mrctid
  }

  /** A log entry records the commit, by executor `t`, of a transaction with these reads and writes. */
  ghost predicate CommittedAs(e: Entry, t: nat, rset: seq<ReadElement>, wset: seq<WriteElement>) {
    e.thread == t && e.outcome.Done? && e.gets == rset && e.writes == wset
  }

  /** The log entry is a committed transfer of executor `t`: the one asked for, if both writes are faithful. */
  ghost predicate Carried(e: Entry, t: nat, r: Request, dflt: Value) {
    && e.thread == t && e.outcome.Done? && Attempts(e, r, dflt) && Leaves(e, r, dflt)
    && (IsTransfer(e, r) <==>
          Faithful(e.gets[0].val, Plus(e.gets[0].val, -r.diff), dflt)
          && Faithful(e.gets[1].val, Plus(e.gets[1].val, r.diff), dflt))
  }

  lemma CarriedOf(s: State, j: nat, t: nat, gets: seq<ReadElement>, wset: seq<WriteElement>, r: Request, dflt: Value)
    requires Inv(s) && j < |s.sh.log| && CommittedAs(s.sh.log[j], t, gets, SortByKey(wset)) && r.from < r.to
    requires |gets| == 2 && |dflt| == 4
    requires gets[0].key == r.from && |gets[0].val| == 4 && gets[1].key == r.to && |gets[1].val| == 4
    requires wset == [WriteElement(r.from, Given(Plus(gets[0].val, -r.diff), dflt)),
                      WriteElement(r.to, Given(Plus(gets[1].val, r.diff), dflt))]
    ensures Carried(s.sh.log[j], t, r, dflt)
  {
    hide Inv, Plus, Given, SortByKey, IsTransfer, Faithful, Leaves;
    SortOfTwo(wset);
    assert SharedInv(s.sh) by { InvShared(s); }
    SiloTransfer.LeavesOf(s.sh, j, r, dflt);
    TransferIff(s.sh.log[j], r, dflt);
  }

  lemma InvShared(s: State)
    requires Inv(s)
    ensures SharedInv(s.sh)
  {
    hide SharedInv, LocalInv, LagInv;
  }

  lemma EntryOf(s: State, t: nat)
    requires Inv(s) && t < |s.thr| && s.thr[t].pc.Install?
    ensures var l := s.thr[t]; 0 <= l.entry < |s.sh.log| && CommittedAs(s.sh.log[l.entry], t, l.rset, l.wset)
  {
    hide SharedInv, LagInv;
    assert LocalInv(s.sh, t, s.thr[t]);
  }

  /** Where `lockWriteSet` stands with `i` of `n` locks taken. */
  function LockNext(i: nat, n: nat): Pc {
    if i < n then LockLoad(i) else EpochLoad
  }

  lemma {:induction false} FirstRead(rset: seq<ReadElement>, key: nat, i: nat)
    requires i < |rset| && rset[i].key == key && SearchRead(rset[..i], key) < 0
    ensures SearchRead(rset, key) == i
  {
    var n := |rset| - 1;
    if i < n {
      assert rset[..n][..i] == rset[..i];
      FirstRead(rset[..n], key, i);
    }
  }

  lemma {:induction false} FirstWrite(wset: seq<WriteElement>, key: nat, i: nat)
    requires i < |wset| && wset[i].key == key && SearchWrite(wset[..i], key) < 0
    ensures SearchWrite(wset, key) == i
  {
    var n := |wset| - 1;
    if i < n {
      assert wset[..n][..i] == wset[..i];
      FirstWrite(wset[..n], key, i);
    }
  }
}
