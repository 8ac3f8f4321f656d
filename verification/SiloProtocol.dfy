/// Silo's optimistic commit protocol as a step machine.
///
/// Any number of executors run over one table. Every access to shared memory is one step: a load, a
/// compare-and-swap or a store of a TID word, the copy of one byte of a value, a load or a store of an epoch
/// counter. Which executor moves next, and what its client asks for, is arbitrary. Fields marked `auxiliary`
/// record history for the proofs; no branch depends on them.

module Silo {
  import opened Tidwords

  type Byte = b: int | 0 <= b < 256
  type Value = seq<Byte>

  datatype Tuple = Tuple(word: Tidword, val: Value)
  datatype ReadElement = ReadElement(key: nat, val: Value, word: Tidword)
  datatype WriteElement = WriteElement(key: nat, val: Value)
  datatype Status = InFlight | Committed | Aborted

  /** Where an executor stands between two accesses to shared memory. */
  datatype Pc =
    | Ready                                                  // between two calls of its client
    | ReadLoad(key: nat)                                     // `read`: about to load the TID word
    | ReadCopy(key: nat, expected: Tidword, buf: Value)      // `read`: copying, then rechecking the word
    | LockLoad(i: nat)                                       // `lockWriteSet`: about to load word i
    | LockTry(i: nat, expected: Tidword)                     // `lockWriteSet`: about to test and swap word i
    | EpochLoad                                              // `validationPhase`: about to load the global epoch
    | EpochStore(e: EpochField)                              // ... and to store it in its own slot
    | Validate(i: nat)                                       // ... and to check read-set element i
    | Choose                                                 // `writePhase`: about to choose the commit TID
    | Install(i: nat, b: nat)                                // ... and to write byte b, or the word, of element i
    | UnlockLoad(i: nat, end: nat)                           // `unlockWriteSet`: about to load word i of `end`
    | UnlockStore(i: nat, end: nat, word: Tidword)           // ... and to store it back unlocked
    | Failed                                                 // validation returned false; `abort` comes next
    | Scan(now: EpochField, i: nat)                          // `leaderWork`: about to check worker i's epoch

  datatype Local = Local(
    pc: Pc, status: Status,
    rset: seq<ReadElement>, wset: seq<WriteElement>,
    maxw: Tidword, maxr: Tidword, mrctid: Tidword,
    dflt: Value,            // the value written when a client passes none
    srcs: seq<int>,         // auxiliary: per read-set element, the log position of the commit it read from
    full: seq<WriteElement>, // auxiliary: the write set, with the bytes of each record that it leaves as they are
    over: seq<Tidword>,     // auxiliary: the words the write locks were taken on
    seen: seq<Tidword>,     // auxiliary: the words found by validation
    entry: int)             // auxiliary: log position, or -1 before the serialization point and after an abort

  /** What became of a transaction that passed its serialization point. */
  datatype Outcome =
    | Pending
    | Done(word: Tidword, over: seq<Tidword>, seen: seq<Tidword>, prev: Tidword)
    | Gone

  /** One transaction, logged at the epoch load that follows locking. A write may be shorter than the record: `writes`
      has the bytes written, `puts` the value that they make of the record, and `bases` the log position of the commit
      that the other bytes come from. */
  datatype Entry = Entry(thread: nat, epoch: EpochField, gets: seq<ReadElement>, srcs: seq<int>,
                         writes: seq<WriteElement>, bases: seq<int>, puts: map<nat, Value>, outcome: Outcome)

  /** Auxiliary facts about one record. */
  datatype Meta = Meta(
    owner: int,             // the executor that took its lock, or -1
    src: int,               // log position of the last commit installed, or -1
    dirty: bool)            // the owner has overwritten some bytes but not yet the word

  /** The state that all executors share. */
  datatype Shared = Shared(
    width: nat,             // VAL_SIZE
    table: seq<Tuple>,
    epoch: EpochField,      // GlobalEpoch
    local: seq<EpochField>, // ThLocalEpoch
    init: seq<Tuple>,       // auxiliary: the table at the start
    meta: seq<Meta>,        // auxiliary
    log: seq<Entry>)        // auxiliary: transactions in the order of their epoch loads

  datatype State = State(sh: Shared, thr: seq<Local>)

  /** The outcome of a step: the shared state and the state of the executor that took it. */
  datatype Pair = Pair(sh: Shared, l: Local)

  // ----- search, sort and views of a write set -----

  function SearchRead(rset: seq<ReadElement>, key: nat): (i: int)
    ensures -1 <= i < |rset|
    ensures i >= 0 ==> rset[i].key == key && forall j :: 0 <= j < i ==> rset[j].key != key
    ensures i < 0 ==> forall j :: 0 <= j < |rset| ==> rset[j].key != key
  {
    if rset == [] then -1
    else
      var i := SearchRead(rset[..|rset| - 1], key);
      if i >= 0 then i else if rset[|rset| - 1].key == key then |rset| - 1 else -1
  }

  function SearchWrite(wset: seq<WriteElement>, key: nat): (i: int)
    ensures -1 <= i < |wset|
    ensures i >= 0 ==> wset[i].key == key && forall j :: 0 <= j < i ==> wset[j].key != key
    ensures i < 0 ==> forall j :: 0 <= j < |wset| ==> wset[j].key != key
  {
    if wset == [] then -1
    else
      var i := SearchWrite(wset[..|wset| - 1], key);
      if i >= 0 then i else if wset[|wset| - 1].key == key then |wset| - 1 else -1
  }

  predicate ApartReads(rset: seq<ReadElement>, i: int, j: int) {
    0 <= i < j < |rset| ==> rset[i].key != rset[j].key
  }

  ghost predicate DistinctReads(rset: seq<ReadElement>) {
    forall i, j :: ApartReads(rset, i, j)
  }

  predicate ApartWrites(wset: seq<WriteElement>, i: int, j: int) {
    0 <= i < j < |wset| ==> wset[i].key != wset[j].key
  }

  ghost predicate DistinctWrites(wset: seq<WriteElement>) {
    forall i, j :: ApartWrites(wset, i, j)
  }

  lemma DistinctPrefix(wset: seq<WriteElement>, n: nat)
    requires DistinctWrites(wset) && n <= |wset|
    ensures DistinctWrites(wset[..n])
  {
    forall i, j ensures ApartWrites(wset[..n], i, j) {
      assert ApartWrites(wset, i, j);
    }
  }

  lemma DistinctAppend(wset: seq<WriteElement>, w: WriteElement)
    requires DistinctWrites(wset) && forall j :: 0 <= j < |wset| ==> wset[j].key != w.key
    ensures DistinctWrites(wset + [w])
  {
    forall i, j ensures ApartWrites(wset + [w], i, j) {
      assert ApartWrites(wset, i, j);
    }
  }

  predicate SortedByKey(wset: seq<WriteElement>) {
    forall i, j :: 0 <= i < j < |wset| ==> wset[i].key <= wset[j].key
  }

  /** The position before which every key is at most `key`. */
  function InsertAt(wset: seq<WriteElement>, key: nat): (p: nat)
    requires SortedByKey(wset)
    ensures p <= |wset|
    ensures forall j :: 0 <= j < p ==> wset[j].key <= key
    ensures forall j :: p <= j < |wset| ==> key < wset[j].key
  {
    if wset == [] || wset[|wset| - 1].key <= key then |wset| else InsertAt(wset[..|wset| - 1], key)
  }

  function InsertByKey(wset: seq<WriteElement>, w: WriteElement): (r: seq<WriteElement>)
    requires SortedByKey(wset)
    ensures SortedByKey(r) && |r| == |wset| + 1
  {
    var p := InsertAt(wset, w.key);
    wset[..p] + [w] + wset[p..]
  }

  /** `sort(write_set_.begin(), write_set_.end())`. */
  function SortByKey(wset: seq<WriteElement>): (r: seq<WriteElement>)
    ensures SortedByKey(r) && |r| == |wset|
  {
    if wset == [] then [] else InsertByKey(SortByKey(wset[..|wset| - 1]), wset[|wset| - 1])
  }

  lemma {:induction false} SortPermutes(wset: seq<WriteElement>)
    ensures multiset(SortByKey(wset)) == multiset(wset)
  {
    if wset != [] {
      var front, w := wset[..|wset| - 1], wset[|wset| - 1];
      var r := SortByKey(front);
      SortPermutes(front);
      assert wset == front + [w];
      assert r == r[..InsertAt(r, w.key)] + r[InsertAt(r, w.key)..];
    }
  }

  /** A write set as a map from keys to values. */
  function Puts(wset: seq<WriteElement>): map<nat, Value> {
    if wset == [] then map[] else Puts(wset[..|wset| - 1])[wset[|wset| - 1].key := wset[|wset| - 1].val]
  }

  /** What a record holds after the bytes `v` have been written over `was`. */
  function Over(was: Value, v: Value): (r: Value)
    ensures |v| <= |was| ==> |r| == |was| && r[..|v|] == v && r[|v|..] == was[|v|..]
  {
    if |v| <= |was| then v + was[|v|..] else v
  }

  /** A write set over the records of a table: whole values. */
  function OverAll(table: seq<Tuple>, wset: seq<WriteElement>): (r: seq<WriteElement>)
    ensures |r| == |wset|
  {
    seq(|wset|, i requires 0 <= i < |wset| =>
      var w := wset[i];
      WriteElement(w.key, if w.key < |table| then Over(table[w.key].val, w.val) else w.val))
  }

  /** The log positions of the last commits on the keys of a write set. */
  function Bases(meta: seq<Meta>, wset: seq<WriteElement>): (r: seq<int>)
    ensures |r| == |wset|
  {
    seq(|wset|, i requires 0 <= i < |wset| => if wset[i].key < |meta| then meta[wset[i].key].src else -1)
  }

  // ----- the atomic steps -----

  /** What happens next: a call by the client of the executor, or the next access of the running call. */
  datatype Action =
    | Begin
    | Read(key: nat)
    | Write(key: nat, val: Value)
    | Validation
    | Abort
    | Leader
    | Tick

  datatype Step = Step(t: nat, a: Action)

  function SetTuple(sh: Shared, k: nat, tuple: Tuple, m: Meta): Shared
    requires k < |sh.table| == |sh.meta|
  {
    sh.(table := sh.table[k := tuple], meta := sh.meta[k := m])
  }

  function SetOutcome(sh: Shared, j: int, o: Outcome): Shared
    requires 0 <= j < |sh.log|
  {
    sh.(log := sh.log[j := sh.log[j].(outcome := o)])
  }

  // Calls of the client.

  function CallBegin(l: Local): Local {
    l.(status := InFlight, maxw := ZERO, maxr := ZERO, over := [], seen := [])
  }

  function CallRead(l: Local, k: nat): Local {
    if SearchRead(l.rset, k) >= 0 || SearchWrite(l.wset, k) >= 0 then l else l.(pc := ReadLoad(k))
  }

  function CallWrite(l: Local, k: nat, v: Value): Local {
    if SearchWrite(l.wset, k) >= 0 then l
    else l.(wset := l.wset + [WriteElement(k, if v == [] then l.dflt else v)])
  }

  function CallValidation(l: Local): Local {
    l.(wset := SortByKey(l.wset), pc := if l.wset == [] then EpochLoad else LockLoad(0))
  }

  function CallAbort(l: Local): Local {
    l.(rset := [], srcs := [], wset := [], pc := Ready)
  }

  // Steps of `read`.

  function AfterLoad(k: nat, w: Tidword): Pc {
    if w.lock then ReadLoad(k) else ReadCopy(k, w, [])
  }

  function TickReadLoad(sh: Shared, l: Local, k: nat): Local
    requires k < |sh.table|
  {
    l.(pc := AfterLoad(k, sh.table[k].word))
  }

  /** The next byte of `memcpy`, or, after the last one, the recheck of the TID word. */
  function TickReadCopy(sh: Shared, l: Local, k: nat, expected: Tidword, buf: Value): Local
    requires k < |sh.table| == |sh.meta|
  {
    var tuple := sh.table[k];
    if |buf| < |tuple.val| then l.(pc := ReadCopy(k, expected, buf + [tuple.val[|buf|]]))
    else if expected == tuple.word then
      l.(rset := l.rset + [ReadElement(k, buf, expected)], srcs := l.srcs + [sh.meta[k].src], pc := Ready)
    else l.(pc := AfterLoad(k, tuple.word))
  }

  // Steps of `lockWriteSet` and `unlockWriteSet`.

  /** Element `i` of the write set exists and names a record. */
  predicate AtWrite(sh: Shared, l: Local, i: nat) {
    |sh.meta| == |sh.table| && i < |l.wset| && l.wset[i].key < |sh.table|
  }

  function TickLockLoad(sh: Shared, l: Local, i: nat): Local
    requires AtWrite(sh, l, i)
  {
    l.(pc := LockTry(i, sh.table[l.wset[i].key].word))
  }

  function Taken(l: Local, i: nat, expected: Tidword): Local {
    l.(maxw := Max(l.maxw, expected), over := l.over + [expected],
       pc := if i + 1 < |l.wset| then LockLoad(i + 1) else EpochLoad)
  }

  /** Record `k` with its lock bit set for owner `t`, or cleared when the owner is -1. */
  function Relock(sh: Shared, k: nat, owner: int): Shared
    requires k < |sh.table| == |sh.meta|
  {
    SetTuple(sh, k, sh.table[k].(word := sh.table[k].word.(lock := owner >= 0)), sh.meta[k].(owner := owner))
  }

  function TickLockTry(sh: Shared, t: nat, l: Local, i: nat, expected: Tidword): Pair
    requires AtWrite(sh, l, i)
  {
    var k := l.wset[i].key;
    if expected.lock then Pair(sh, l.(status := Aborted, pc := if i > 0 then UnlockLoad(0, i) else Failed))
    else if sh.table[k].word == expected then Pair(Relock(sh, k, t), Taken(l, i, expected))
    else Pair(sh, l.(pc := LockTry(i, sh.table[k].word)))
  }

  function TickUnlockLoad(sh: Shared, l: Local, i: nat, end: nat): Local
    requires AtWrite(sh, l, i)
  {
    l.(pc := UnlockStore(i, end, sh.table[l.wset[i].key].word.(lock := false)))
  }

  function TickUnlockStore(sh: Shared, l: Local, i: nat, end: nat, w: Tidword): Pair
    requires AtWrite(sh, l, i)
  {
    var k := l.wset[i].key;
    Pair(SetTuple(sh, k, sh.table[k].(word := w), sh.meta[k].(owner := -1)),
         l.(pc := if i + 1 < end then UnlockLoad(i + 1, end) else Failed))
  }

  // Steps of `validationPhase` after locking.

  /** The serialization point: the epoch load. */
  function TickEpochLoad(sh: Shared, t: nat, l: Local): Pair {
    var full := OverAll(sh.table, l.wset);
    var e := Entry(t, sh.epoch, l.rset, l.srcs, l.wset, Bases(sh.meta, l.wset), Puts(full), Pending);
    Pair(sh.(log := sh.log + [e]), l.(entry := |sh.log|, full := full, pc := EpochStore(sh.epoch)))
  }

  function TickEpochStore(sh: Shared, t: nat, l: Local, e: EpochField): Pair
    requires t < |sh.local|
  {
    Pair(sh.(local := sh.local[t := e]), l.(pc := Validate(0)))
  }

  function Reject(sh: Shared, l: Local): Pair
    requires 0 <= l.entry < |sh.log|
  {
    Pair(SetOutcome(sh, l.entry, Gone),
         l.(status := Aborted, entry := -1, pc := if l.wset == [] then Failed else UnlockLoad(0, |l.wset|)))
  }

  /** The check of read-set element `i`, or, after the last one, the end of the loop. */
  function TickValidate(sh: Shared, l: Local, i: nat): Pair
    requires 0 <= l.entry < |sh.log|
    requires i < |l.rset| ==> l.rset[i].key < |sh.table|
  {
    if i >= |l.rset| then Pair(sh, l.(status := Committed, pc := Choose))
    else
      var r, check := l.rset[i], sh.table[l.rset[i].key].word;
      if r.word.epoch != check.epoch || r.word.tid != check.tid then Reject(sh, l)
      else if check.lock && SearchWrite(l.wset, r.key) < 0 then Reject(sh, l)
      else Pair(sh, l.(maxr := Max(l.maxr, check), seen := l.seen + [check], pc := Validate(i + 1)))
  }

  // Steps of `writePhase`.

  /** No counter has reached the end of its field within the current epoch. */
  predicate CountersHaveRoom(l: Local, e: EpochField) {
    HasRoom(l.maxw, e) && HasRoom(l.maxr, e) && HasRoom(l.mrctid, e)
  }

  function TickChoose(sh: Shared, t: nat, l: Local): Pair
    requires 0 <= l.entry < |sh.log| && t < |sh.local|
  {
    var word := CommitWord(l.maxw, l.maxr, l.mrctid, sh.local[t]);
    Pair(SetOutcome(sh, l.entry, Done(word, l.over, l.seen, l.mrctid)), l.(mrctid := word, pc := Install(0, 0)))
  }

  function TickInstallByte(sh: Shared, l: Local, i: nat, b: nat): Pair
    requires AtWrite(sh, l, i)
    requires b < |l.wset[i].val| && b < |sh.table[l.wset[i].key].val|
  {
    var k := l.wset[i].key;
    Pair(SetTuple(sh, k, sh.table[k].(val := sh.table[k].val[b := l.wset[i].val[b]]), sh.meta[k].(dirty := true)),
         l.(pc := Install(i, b + 1)))
  }

  function TickInstallWord(sh: Shared, l: Local, i: nat): Pair
    requires AtWrite(sh, l, i)
  {
    var k := l.wset[i].key;
    Pair(SetTuple(sh, k, sh.table[k].(word := l.mrctid), Meta(-1, l.entry, false)), l.(pc := Install(i + 1, 0)))
  }

  function TickInstallDone(l: Local): Local {
    l.(rset := [], srcs := [], wset := [], entry := -1, pc := Ready)
  }

  function TickInstall(sh: Shared, l: Local, i: nat, b: nat): Pair
    requires i < |l.wset| ==> AtWrite(sh, l, i) && |l.wset[i].val| <= |sh.table[l.wset[i].key].val|
  {
    if i >= |l.wset| then Pair(sh, TickInstallDone(l))
    else if b < |l.wset[i].val| then TickInstallByte(sh, l, i, b)
    else TickInstallWord(sh, l, i)
  }

  // Steps of `leaderWork`.

  /** The check of worker `i`, or, after the last one, the increment of the global epoch. */
  function TickScan(sh: Shared, l: Local, now: EpochField, i: nat): Pair
    requires i >= |sh.local| ==> sh.epoch + 1 < EPOCH_LIMIT
  {
    if i < |sh.local| then Pair(sh, l.(pc := if sh.local[i] == now then Scan(now, i + 1) else Ready))
    else Pair(sh.(epoch := sh.epoch + 1), l.(pc := Ready))
  }

  /** The next access is possible. Indices are in range in every run; and no counter may run out of its field. */
  predicate TickEnabled(sh: Shared, t: nat, l: Local) {
    && t < |sh.local| && |sh.meta| == |sh.table|
    && match l.pc
       case Ready => false
       case Failed => false
       case ReadLoad(k) => k < |sh.table|
       case ReadCopy(k, _, _) => k < |sh.table|
       case LockLoad(i) => AtWrite(sh, l, i)
       case LockTry(i, _) => AtWrite(sh, l, i)
       case UnlockLoad(i, _) => AtWrite(sh, l, i)
       case UnlockStore(i, _, _) => AtWrite(sh, l, i)
       case Validate(i) => 0 <= l.entry < |sh.log| && (i < |l.rset| ==> l.rset[i].key < |sh.table|)
       case Choose => 0 <= l.entry < |sh.log| && CountersHaveRoom(l, sh.local[t])
       case Install(i, _) => i < |l.wset| ==> AtWrite(sh, l, i) && |l.wset[i].val| <= |sh.table[l.wset[i].key].val|
       case Scan(_, i) => i >= |sh.local| ==> sh.epoch + 1 < EPOCH_LIMIT
       case _ => true
  }

  function TickPair(sh: Shared, t: nat, l: Local): Pair
    requires TickEnabled(sh, t, l)
  {
    match l.pc
    case ReadLoad(k) => Pair(sh, TickReadLoad(sh, l, k))
    case ReadCopy(k, expected, buf) => Pair(sh, TickReadCopy(sh, l, k, expected, buf))
    case LockLoad(i) => Pair(sh, TickLockLoad(sh, l, i))
    case LockTry(i, expected) => TickLockTry(sh, t, l, i, expected)
    case EpochLoad => TickEpochLoad(sh, t, l)
    case EpochStore(e) => TickEpochStore(sh, t, l, e)
    case Validate(i) => TickValidate(sh, l, i)
    case Choose => TickChoose(sh, t, l)
    case Install(i, b) => TickInstall(sh, l, i, b)
    case UnlockLoad(i, end) => Pair(sh, TickUnlockLoad(sh, l, i, end))
    case UnlockStore(i, end, w) => TickUnlockStore(sh, l, i, end, w)
    case Scan(now, i) => TickScan(sh, l, now, i)
  }

  predicate Enabled(sh: Shared, t: nat, l: Local, a: Action) {
    match a
    case Begin => l.pc.Ready?
    case Read(k) => l.pc.Ready? && k < |sh.table|
    case Write(k, v) => l.pc.Ready? && k < |sh.table| && |v| <= sh.width
    case Validation => l.pc.Ready? && l.status.InFlight?
    case Abort => l.pc.Failed?
    case Leader => l.pc.Ready? && t == 0
    case Tick => TickEnabled(sh, t, l)
  }

  function Act(sh: Shared, t: nat, l: Local, a: Action): Pair
    requires Enabled(sh, t, l, a)
  {
    match a
    case Begin => Pair(sh, CallBegin(l))
    case Read(k) => Pair(sh, CallRead(l, k))
    case Write(k, v) => Pair(sh, CallWrite(l, k, v))
    case Validation => Pair(sh, CallValidation(l))
    case Abort => Pair(sh, CallAbort(l))
    case Leader => Pair(sh, l.(pc := Scan(sh.epoch, 1)))
    case Tick => TickPair(sh, t, l)
  }

  /** One step. A step that is not enabled changes nothing. */
  function Next(s: State, step: Step): State {
    if step.t < |s.thr| && Enabled(s.sh, step.t, s.thr[step.t], step.a) then
      var p := Act(s.sh, step.t, s.thr[step.t], step.a);
      State(p.sh, s.thr[step.t := p.l])
    else s
  }

  /** Every sequence of steps is a run: the schedule and the clients are arbitrary. */
  function Run(s: State, steps: seq<Step>): State {
    if steps == [] then s else Next(Run(s, steps[..|steps| - 1]), steps[|steps| - 1])
  }

  /** A freshly built database: every record unlocked and in epoch 1 or before, every executor idle. */
  ghost predicate Start(s: State) {
    && |s.sh.meta| == |s.sh.table| && s.sh.init == s.sh.table && s.sh.log == []
    && (forall k :: 0 <= k < |s.sh.table| ==>
          && |s.sh.table[k].val| == s.sh.width
          && !s.sh.table[k].word.lock && s.sh.table[k].word.epoch <= s.sh.epoch
          && s.sh.meta[k] == Meta(-1, -1, false))
    && |s.sh.local| == |s.thr|
    && (forall t :: 0 <= t < |s.thr| ==>
          && s.thr[t] == Local(Ready, s.thr[t].status, [], [], ZERO, ZERO, ZERO, s.thr[t].dflt, [], [], [], [], -1)
          && |s.thr[t].dflt| == s.sh.width
          && 0 <= s.sh.epoch - s.sh.local[t] <= 1)
  }
}
