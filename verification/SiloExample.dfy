/// Money can appear: a run in which one executor carries out one transfer and adds 48 to the total.

module SiloExample {
  import opened Tidwords
  import opened Silo
  import opened SiloSteps
  import opened SiloTheorems
  import opened Amounts
  import opened SiloTransfer
  import opened SiloClients

  // One executor whose default value is "0", an account that holds 97, an empty one, and a transfer of 97.

  const R := Request(0, 1, 97)
  const DEFAULT: Value := [48, 0, 0, 0]
  const FULL: Value := [97, 0, 0, 0]
  const EMPTY: Value := [0, 0, 0, 0]
  const W0 := Tidword(false, true, false, 0, 1)
  const HELD := Tidword(true, true, false, 0, 1)
  const W1 := Tidword(false, true, false, 1, 1)
  const UNTOUCHED := Meta(-1, -1, false)
  const IDLE := Local(Ready, InFlight, [], [], ZERO, ZERO, ZERO, DEFAULT, [], [], [], [], -1)
  const TABLE := [Tuple(W0, FULL), Tuple(W0, EMPTY)]

  function Memory(a: Tuple, b: Tuple, m: Meta, n: Meta, log: seq<Entry>): Shared {
    Shared(4, [a, b], 1, [1], TABLE, [m, n], log)
  }

  const START := Memory(Tuple(W0, FULL), Tuple(W0, EMPTY), UNTOUCHED, UNTOUCHED, [])

  /** The state is reached by a run in which all calls are those of transfers. */
  ghost predicate Reaches(s0: State, s: State) {
    exists steps :: OnlyTransferCalls(s0, steps) && s == Run(s0, steps)
  }

  lemma Go(s0: State, sh: Shared, l: Local, a: Action, sh': Shared, l': Local)
    requires Reaches(s0, State(sh, [l])) && Enabled(sh, 0, l, a) && Act(sh, 0, l, a) == Pair(sh', l')
    requires Calls(l, a, R)
    ensures Reaches(s0, State(sh', [l']))
  {
    hide Enabled, Act, Calls;
    var s, s', step := State(sh, [l]), State(sh', [l']), Step(0, a);
    assert s' == Next(s, step) by { assert s.thr[0 := l'] == [l']; }
    var steps :| OnlyTransferCalls(s0, steps) && s == Run(s0, steps);
    var steps' := steps + [step];
    assert steps'[..|steps|] == steps;
    assert s' == Run(s0, steps');
    assert CallsFrom(s, step);
    forall i | 0 <= i < |steps'| ensures CallsFrom(Run(s0, steps'[..i]), steps'[i]) {
      if i < |steps| {
        assert steps'[..i] == steps[..i];
      }
    }
  }

  const FIRST := ReadElement(0, FULL, W0)
  const SECOND := ReadElement(1, EMPTY, W0)

  function Reading(pc: Pc, rset: seq<ReadElement>, srcs: seq<int>): Local {
    IDLE.(pc := pc, rset := rset, srcs := srcs)
  }

  /** The next byte of a copy of record `k`. */
  lemma CopyByte(s0: State, k: nat, n: nat, rset: seq<ReadElement>, srcs: seq<int>)
    requires k < 2 && n < 4
    requires Reaches(s0, State(START, [Reading(ReadCopy(k, W0, TABLE[k].val[..n]), rset, srcs)]))
    ensures Reaches(s0, State(START, [Reading(ReadCopy(k, W0, TABLE[k].val[..n + 1]), rset, srcs)]))
  {
    hide Reaches;
    var v := TABLE[k].val;
    assert v[..n + 1] == v[..n] + [v[n]];
    Go(s0, START, Reading(ReadCopy(k, W0, v[..n]), rset, srcs), Tick,
       START, Reading(ReadCopy(k, W0, v[..n + 1]), rset, srcs));
  }

  /** A read of record `k`, which nobody locks or changes. */
  lemma ReadOne(s0: State, k: nat, rset: seq<ReadElement>, srcs: seq<int>)
    requires Reaches(s0, State(START, [Reading(Ready, rset, srcs)])) && k < 2
    requires if k == 0 then rset == [] && srcs == [] else rset == [FIRST] && srcs == [-1]
    ensures Reaches(s0, State(START, [Reading(Ready, rset + [ReadElement(k, TABLE[k].val, W0)], srcs + [-1])]))
  {
    hide Reaches;
    var v := TABLE[k].val;
    Go(s0, START, Reading(Ready, rset, srcs), Read(k), START, Reading(ReadLoad(k), rset, srcs));
    Go(s0, START, Reading(ReadLoad(k), rset, srcs), Tick, START, Reading(ReadCopy(k, W0, []), rset, srcs));
    assert v[..0] == [] && v[..4] == v;
    CopyByte(s0, k, 0, rset, srcs);
    CopyByte(s0, k, 1, rset, srcs);
    CopyByte(s0, k, 2, rset, srcs);
    CopyByte(s0, k, 3, rset, srcs);
    Go(s0, START, Reading(ReadCopy(k, W0, v), rset, srcs), Tick,
       START, Reading(Ready, rset + [ReadElement(k, v, W0)], srcs + [-1]));
  }

  const PUT_FIRST := WriteElement(0, DEFAULT)
  const PUT_SECOND := WriteElement(1, [97])

  function Writing(pc: Pc, wset: seq<WriteElement>): Local {
    Reading(pc, [FIRST, SECOND], [-1, -1]).(wset := wset)
  }

  const BOTH := [PUT_FIRST, PUT_SECOND]

  /** Both balances are read, and the string views of the new ones are written: nothing of the one, so that the
      default value stands for it, and one byte of the other. */
  lemma ReadAndWrite() returns (s0: State)
    ensures s0 == State(START, [IDLE]) && Reaches(s0, State(START, [Writing(LockLoad(0), BOTH)]))
  {
    hide Reaches;
    s0 := State(START, [IDLE]);
    assert Reaches(s0, s0) by { AtStart(s0); }
    Go(s0, START, IDLE, Begin, START, IDLE);
    assert IDLE == Reading(Ready, [], []);
    ReadOne(s0, 0, [], []);
    assert [] + [FIRST] == [FIRST] && [] + [-1] == [-1];
    ReadOne(s0, 1, [FIRST], [-1]);
    assert [FIRST] + [SECOND] == [FIRST, SECOND] && [-1] + [-1] == [-1, -1];
    NewBalances();
    WriteBoth(s0);
  }

  lemma AtStart(s0: State)
    ensures Reaches(s0, s0)
  {
    assert s0 == Run(s0, []) && OnlyTransferCalls(s0, []);
  }

  lemma NewBalances()
    ensures Plus(FULL, -97) == EMPTY && CStr(EMPTY) == [] && Given(EMPTY, DEFAULT) == DEFAULT
    ensures Plus(EMPTY, 97) == FULL && CStr(FULL) == [97] && Given(FULL, DEFAULT) == [97]
  {
    assert CStr(FULL) == [97] + CStr([0, 0, 0]);
  }

  lemma WriteBoth(s0: State)
    requires Reaches(s0, State(START, [Writing(Ready, [])]))
    ensures Reaches(s0, State(START, [Writing(LockLoad(0), BOTH)]))
  {
    hide Reaches, Plus, CStr, Given;
    NewBalances();
    assert [] + [PUT_FIRST] == [PUT_FIRST] && [PUT_FIRST] + [PUT_SECOND] == BOTH;
    SortOfTwo(BOTH);
    hide SortByKey;
    Go(s0, START, Writing(Ready, []), Write(0, []), START, Writing(Ready, [PUT_FIRST]));
    Go(s0, START, Writing(Ready, [PUT_FIRST]), Write(1, [97]), START, Writing(Ready, BOTH));
    Go(s0, START, Writing(Ready, BOTH), Validation, START, Writing(LockLoad(0), BOTH));
  }

  // ----- locks and validation -----

  const TAKEN := UNTOUCHED.(owner := 0)

  function Locking(pc: Pc, over: seq<Tidword>): Local {
    Writing(pc, BOTH).(maxw := W0, over := over)
  }

  function Locked(log: seq<Entry>): Shared {
    Memory(Tuple(HELD, FULL), Tuple(HELD, EMPTY), TAKEN, TAKEN, log)
  }

  /** The newer of two words is their maximum. */
  lemma MaxIsNewer(a: Tidword, b: Tidword)
    requires b.epoch < a.epoch || (b.epoch == a.epoch && b.tid < a.tid)
    ensures Max(a, b) == a && Max(b, a) == a
  {
    hide Obj, Ver;
    LessIsLexicographic(a, b);
    LessIsLexicographic(b, a);
    hide Less;
  }

  /** ... and of two words with the same version, the locked one. */
  lemma MaxIsLocked(a: Tidword)
    requires !a.lock
    ensures Max(a, a.(lock := true)) == a.(lock := true)
  {
    LessIsLexicographic(a, a.(lock := true));
    hide Less, Ver;
  }

  lemma MaxWords()
    ensures Max(ZERO, W0) == W0 && Max(W0, W0) == W0 && Max(ZERO, HELD) == HELD && Max(HELD, HELD) == HELD
    ensures CommitWord(W0, HELD, ZERO, 1) == W1
  {
    hide Max;
    MaxIsNewer(W0, ZERO);
    MaxIsNewer(HELD, ZERO);
    MaxIsLocked(W0);
    MaxIsNewer(Bump(HELD), Bump(ZERO));
    MaxIsNewer(Bump(HELD), ZERO.(epoch := 1));
    assert Max(W0, W0) == W0 && Max(HELD, HELD) == HELD by { MaxOfSame(W0); MaxOfSame(HELD); }
  }

  lemma MaxOfSame(a: Tidword)
    ensures Max(a, a) == a
  {
    hide Less;
  }

  lemma TakeFirst(s0: State, one: Shared)
    requires Reaches(s0, State(START, [Writing(LockLoad(0), BOTH)]))
    requires one == Memory(Tuple(HELD, FULL), Tuple(W0, EMPTY), TAKEN, UNTOUCHED, [])
    ensures Reaches(s0, State(one, [Locking(LockLoad(1), [W0])]))
  {
    hide Reaches, Max;
    MaxWords();
    assert [] + [W0] == [W0];
    Go(s0, START, Writing(LockLoad(0), BOTH), Tick, START, Writing(LockTry(0, W0), BOTH));
    Go(s0, START, Writing(LockTry(0, W0), BOTH), Tick, one, Locking(LockLoad(1), [W0]));
  }

  lemma LoadSecond(s0: State, one: Shared)
    requires Reaches(s0, State(one, [Locking(LockLoad(1), [W0])]))
    requires one == Memory(Tuple(HELD, FULL), Tuple(W0, EMPTY), TAKEN, UNTOUCHED, [])
    ensures Reaches(s0, State(one, [Locking(LockTry(1, W0), [W0])]))
  {
    hide Reaches, Max;
    Go(s0, one, Locking(LockLoad(1), [W0]), Tick, one, Locking(LockTry(1, W0), [W0]));
  }

  lemma TakeSecond(s0: State, one: Shared)
    requires Reaches(s0, State(one, [Locking(LockTry(1, W0), [W0])]))
    requires one == Memory(Tuple(HELD, FULL), Tuple(W0, EMPTY), TAKEN, UNTOUCHED, [])
    ensures Reaches(s0, State(Locked([]), [Locking(EpochLoad, [W0, W0])]))
  {
    hide Reaches, Max;
    MaxWords();
    assert [W0] + [W0] == [W0, W0];
    Go(s0, one, Locking(LockTry(1, W0), [W0]), Tick, Locked([]), Locking(EpochLoad, [W0, W0]));
  }

  const WHOLE := [WriteElement(0, DEFAULT), WriteElement(1, FULL)]
  const PUTS: map<nat, Value> := map[0 := DEFAULT, 1 := FULL]

  function Logged(outcome: Outcome): Entry {
    Entry(0, 1, [FIRST, SECOND], [-1, -1], BOTH, [-1, -1], PUTS, outcome)
  }

  function Checking(pc: Pc, maxr: Tidword, seen: seq<Tidword>): Local {
    Locking(pc, [W0, W0]).(entry := 0, full := WHOLE, maxr := maxr, seen := seen)
  }

  lemma WholeValues()
    ensures OverAll(Locked([]).table, BOTH) == WHOLE && Bases(Locked([]).meta, BOTH) == [-1, -1] && Puts(WHOLE) == PUTS
  {
    assert Over(FULL, DEFAULT) == DEFAULT && Over(EMPTY, [97]) == FULL;
    assert WHOLE[..1] == [WriteElement(0, DEFAULT)] && WHOLE[..1][..0] == [];
    assert Puts(WHOLE[..1]) == map[0 := DEFAULT];
  }

  lemma Serialize(s0: State)
    requires Reaches(s0, State(Locked([]), [Locking(EpochLoad, [W0, W0])]))
    ensures Reaches(s0, State(Locked([Logged(Pending)]), [Checking(Validate(0), ZERO, [])]))
  {
    hide Reaches, OverAll, Bases, Puts;
    WholeValues();
    var sh := Locked([Logged(Pending)]);
    assert [] + [Logged(Pending)] == [Logged(Pending)];
    Go(s0, Locked([]), Locking(EpochLoad, [W0, W0]), Tick, sh, Checking(EpochStore(1), ZERO, []));
    assert [1][0 := 1] == [1];
    Go(s0, sh, Checking(EpochStore(1), ZERO, []), Tick, sh, Checking(Validate(0), ZERO, []));
  }

  lemma BothWritten()
    ensures SearchWrite(BOTH, 0) >= 0 && SearchWrite(BOTH, 1) >= 0
  {
    assert BOTH[0].key == 0 && BOTH[1].key == 1;
  }

  lemma CheckFirst(s0: State)
    requires Reaches(s0, State(Locked([Logged(Pending)]), [Checking(Validate(0), ZERO, [])]))
    ensures Reaches(s0, State(Locked([Logged(Pending)]), [Checking(Validate(1), HELD, [HELD])]))
  {
    hide Reaches, Max, Puts, SearchWrite;
    MaxWords();
    BothWritten();
    var sh := Locked([Logged(Pending)]);
    assert [] + [HELD] == [HELD];
    Go(s0, sh, Checking(Validate(0), ZERO, []), Tick, sh, Checking(Validate(1), HELD, [HELD]));
  }

  lemma CheckSecond(s0: State)
    requires Reaches(s0, State(Locked([Logged(Pending)]), [Checking(Validate(1), HELD, [HELD])]))
    ensures Reaches(s0, State(Locked([Logged(Pending)]), [Checking(Validate(2), HELD, [HELD, HELD])]))
  {
    hide Reaches, Max, Puts, SearchWrite;
    MaxWords();
    BothWritten();
    var sh := Locked([Logged(Pending)]);
    assert [HELD] + [HELD] == [HELD, HELD];
    Go(s0, sh, Checking(Validate(1), HELD, [HELD]), Tick, sh, Checking(Validate(2), HELD, [HELD, HELD]));
  }

  // ----- the commit -----

  const DONE := Done(W1, [W0, W0], [HELD, HELD], ZERO)

  function Installing(i: nat, b: nat): Local {
    Checking(Install(i, b), HELD, [HELD, HELD]).(status := Committed, mrctid := W1)
  }

  lemma Choosing(s0: State)
    requires Reaches(s0, State(Locked([Logged(Pending)]), [Checking(Validate(2), HELD, [HELD, HELD])]))
    ensures Reaches(s0, State(Locked([Logged(DONE)]), [Installing(0, 0)]))
  {
    hide Reaches, CommitWord, Puts;
    MaxWords();
    var sh, l := Locked([Logged(Pending)]), Checking(Validate(2), HELD, [HELD, HELD]);
    Go(s0, sh, l, Tick, sh, l.(status := Committed, pc := Choose));
    assert [Logged(Pending)][0 := Logged(DONE)] == [Logged(DONE)];
    Go(s0, sh, l.(status := Committed, pc := Choose), Tick, Locked([Logged(DONE)]), Installing(0, 0));
  }

  /** The first record holds `v`, and its word is not yet installed. */
  function Installed1(v: Value): Shared {
    Memory(Tuple(HELD, v), Tuple(HELD, EMPTY), TAKEN.(dirty := true), TAKEN, [Logged(DONE)])
  }

  const COMMITTED := Meta(-1, 0, false)

  /** The first record is installed, and the second holds `v`. */
  function Installed2(v: Value, m: Meta): Shared {
    Memory(Tuple(W1, DEFAULT), Tuple(HELD, v), COMMITTED, m, [Logged(DONE)])
  }

  const AFTER := Memory(Tuple(W1, DEFAULT), Tuple(W1, FULL), COMMITTED, COMMITTED, [Logged(DONE)])

  lemma InstallNext(s0: State, b: nat)
    requires 1 <= b < 4 && Reaches(s0, State(Installed1(DEFAULT), [Installing(0, b)]))
    ensures Reaches(s0, State(Installed1(DEFAULT), [Installing(0, b + 1)]))
  {
    hide Reaches, Puts;
    assert DEFAULT[b := DEFAULT[b]] == DEFAULT;
    Go(s0, Installed1(DEFAULT), Installing(0, b), Tick, Installed1(DEFAULT), Installing(0, b + 1));
  }

  lemma InstallFirst(s0: State)
    requires Reaches(s0, State(Locked([Logged(DONE)]), [Installing(0, 0)]))
    ensures Reaches(s0, State(Installed1(DEFAULT), [Installing(0, 4)]))
  {
    hide Reaches, Puts;
    assert FULL[0 := 48] == DEFAULT;
    Go(s0, Locked([Logged(DONE)]), Installing(0, 0), Tick, Installed1(DEFAULT), Installing(0, 1));
    InstallNext(s0, 1);
    InstallNext(s0, 2);
    InstallNext(s0, 3);
  }

  lemma InstallSecond(s0: State)
    requires Reaches(s0, State(Installed1(DEFAULT), [Installing(0, 4)]))
    ensures Reaches(s0, State(AFTER, [Installing(2, 0)]))
  {
    hide Reaches, Puts;
    assert EMPTY[0 := 97] == FULL;
    Go(s0, Installed1(DEFAULT), Installing(0, 4), Tick, Installed2(EMPTY, TAKEN), Installing(1, 0));
    Go(s0, Installed2(EMPTY, TAKEN), Installing(1, 0), Tick, Installed2(FULL, TAKEN.(dirty := true)), Installing(1, 1));
    Go(s0, Installed2(FULL, TAKEN.(dirty := true)), Installing(1, 1), Tick, AFTER, Installing(2, 0));
  }

  /** A run of nothing but transfers in which one commits, and the accounts that held 97 together hold 145 after it:
      the transfer was asked to take 97 from one account to the other, and the one account holds 48 afterwards. */
  lemma MoneyCanAppear() returns (s0: State, s: State)
    ensures Start(s0) && s0.sh.width == 4 && Reaches(s0, s) && Reachable(s0, s)
    ensures |s.thr| == 1 && s.thr[0].pc.Ready? && |s.sh.log| == 1 && s.sh.log[0].outcome.Done?
    ensures Attempts(s.sh.log[0], R, DEFAULT) && !IsTransfer(s.sh.log[0], R)
    ensures Total(Values(s0.sh.table)) == 97 && Total(Values(s.sh.table)) == 145
  {
    hide Reaches, Attempts, IsTransfer, Total, Values, Start, Reachable;
    s0 := ReadAndWrite();
    var one := Memory(Tuple(HELD, FULL), Tuple(W0, EMPTY), TAKEN, UNTOUCHED, []);
    TakeFirst(s0, one);
    LoadSecond(s0, one);
    TakeSecond(s0, one);
    Serialize(s0);
    CheckFirst(s0);
    CheckSecond(s0);
    Choosing(s0);
    InstallFirst(s0);
    InstallSecond(s0);
    var l := Finish(s0);
    s := State(AFTER, [l]);
    assert Start(s0) by { StartsWell(s0); }
    assert Reachable(s0, s) by { ReachesIsReachable(s0, s); }
    Totals(s0, s);
    NotATransfer();
  }

  lemma Finish(s0: State) returns (l: Local)
    requires Reaches(s0, State(AFTER, [Installing(2, 0)]))
    ensures l.pc.Ready? && Reaches(s0, State(AFTER, [l]))
  {
    hide Reaches, Puts;
    l := TickInstallDone(Installing(2, 0));
    Go(s0, AFTER, Installing(2, 0), Tick, AFTER, l);
  }

  lemma StartsWell(s0: State)
    requires s0 == State(START, [IDLE])
    ensures Start(s0)
  {
  }

  lemma ReachesIsReachable(s0: State, s: State)
    requires Reaches(s0, s) && Start(s0)
    ensures Reachable(s0, s)
  {
    hide Start, Run, OnlyTransferCalls;
  }

  lemma Totals(s0: State, s: State)
    requires s0.sh == START && s.sh == AFTER
    ensures Total(Values(s0.sh.table)) == 97 && Total(Values(s.sh.table)) == 145
  {
    assert Values(s0.sh.table) == [FULL, EMPTY] && Values(s.sh.table) == [DEFAULT, FULL];
    TotalOfTwo(FULL, EMPTY);
    TotalOfTwo(DEFAULT, FULL);
  }

  lemma TotalOfTwo(a: Value, b: Value)
    requires |a| == 4 && |b| == 4
    ensures Total([a, b]) == Decode(a) + Decode(b)
  {
    hide Decode;
    assert [a, b][..1] == [a] && [a][..0] == [];
    assert Total([a]) == Decode(a);
  }

  lemma NotATransfer()
    ensures Attempts(Logged(DONE), R, DEFAULT) && !IsTransfer(Logged(DONE), R)
  {
    NewBalances();
    hide Plus, CStr, Given;
    assert PUTS[0] != EMPTY;
  }
}
