/// The inductive invariant of the Silo protocol: facts about the shared state, facts about one executor, and
/// what an executor may rely on while the others run.

module SiloInvariant {
  import opened Tidwords
  import opened Silo

  // ----- what an executor holds -----

  /** Elements `Lo..Hi` of the write set are locked by the executor. */
  function Lo(pc: Pc): nat {
    match pc
    case UnlockLoad(i, _) => i
    case UnlockStore(i, _, _) => i
    case Install(i, _) => i
    case _ => 0
  }

  function Hi(pc: Pc, n: nat): nat {
    match pc
    case LockLoad(i) => i
    case LockTry(i, _) => i
    case EpochLoad => n
    case EpochStore(_) => n
    case Validate(_) => n
    case Choose => n
    case Install(_, _) => n
    case UnlockLoad(_, end) => end
    case UnlockStore(_, end, _) => end
    case _ => 0
  }

  ghost predicate Holds(wset: seq<WriteElement>, lo: nat, hi: nat, k: int) {
    exists j :: lo <= j < hi && j < |wset| && wset[j].key == k
  }

  /** Past its serialization point and not aborted. */
  predicate Serialized(pc: Pc) { pc.EpochStore? || pc.Validate? || pc.Choose? || pc.Install? }

  /** Between the call of validation and the choice of the commit TID. */
  predicate Committing(pc: Pc) {
    pc.LockLoad? || pc.LockTry? || pc.EpochLoad? || pc.EpochStore? || pc.Validate? || pc.Choose?
  }

  /** How many write locks have been recorded, and how many reads validated. */
  function Locked(pc: Pc, n: nat): nat {
    match pc
    case LockLoad(i) => i
    case LockTry(i, _) => i
    case _ => n
  }

  function Checked(pc: Pc, n: nat): nat {
    match pc
    case Validate(i) => i
    case Choose => n
    case _ => 0
  }

  // ----- shapes and ranges -----

  ghost predicate ReadShape(n: nat, rset: seq<ReadElement>, srcs: seq<int>) {
    && |srcs| == |rset| && DistinctReads(rset)
    && (forall i :: 0 <= i < |rset| ==> rset[i].key < n)
  }

  ghost predicate WriteShape(n: nat, width: nat, wset: seq<WriteElement>) {
    && DistinctWrites(wset)
    && (forall i :: 0 <= i < |wset| ==> wset[i].key < n && |wset[i].val| <= width)
  }

  predicate PcShape(n: nat, width: nat, t: nat, pc: Pc, rset: seq<ReadElement>, wn: nat) {
    match pc
    case ReadLoad(k) => k < n && SearchRead(rset, k) < 0
    case ReadCopy(k, expected, buf) => k < n && SearchRead(rset, k) < 0 && !expected.lock && |buf| <= width
    case LockLoad(i) => i < wn
    case LockTry(i, _) => i < wn
    case Validate(i) => i <= |rset|
    case Install(i, b) => i <= wn && b <= width
    case UnlockLoad(i, end) => i < end <= wn
    case UnlockStore(i, end, _) => i < end <= wn
    case Scan(_, i) => t == 0 && 1 <= i
    case _ => true
  }

  ghost predicate LocalShape(n: nat, width: nat, t: nat, l: Local) {
    && |l.dflt| == width && ReadShape(n, l.rset, l.srcs) && WriteShape(n, width, l.wset)
    && PcShape(n, width, t, l.pc, l.rset, |l.wset|)
  }

  ghost predicate SharedShape(sh: Shared) {
    && |sh.meta| == |sh.init| == |sh.table|
    && (forall k :: 0 <= k < |sh.table| ==> |sh.table[k].val| == sh.width)
  }

  // ----- one executor -----

  /** The executor owns exactly elements `lo..hi` of its write set. */
  ghost predicate LocksInv(meta: seq<Meta>, t: nat, wset: seq<WriteElement>, lo: nat, hi: nat) {
    && (forall j :: lo <= j < hi && j < |wset| && wset[j].key < |meta| ==> meta[wset[j].key].owner == t)
    && (forall k :: 0 <= k < |meta| && meta[k].owner == t ==> Holds(wset, lo, hi, k))
  }

  ghost predicate UnlockInv(table: seq<Tuple>, pc: Pc, wset: seq<WriteElement>) {
    pc.UnlockStore? && pc.i < |wset| && wset[pc.i].key < |table| ==>
      pc.word == table[wset[pc.i].key].word.(lock := false)
  }

  /** The executor's log entry is its current transaction. */
  ghost predicate EntryInv(log: seq<Entry>, t: nat, l: Local) {
    && (l.entry >= 0 <==> Serialized(l.pc)) && -1 <= l.entry < |log|
    && (l.entry >= 0 ==>
          && var e := log[l.entry];
             e.thread == t && e.gets == l.rset && e.srcs == l.srcs && e.writes == l.wset && e.puts == Puts(l.full)
             && (if l.pc.Install? then e.outcome.Done? && e.outcome.word == l.mrctid else e.outcome.Pending?))
  }

  /** `f` writes the bytes of `w`, and possibly more of the record. */
  predicate Extends(w: WriteElement, f: WriteElement, width: nat) {
    f.key == w.key && |w.val| <= |f.val| == width && f.val[..|w.val|] == w.val
  }

  ghost predicate FullInv(entry: int, width: nat, wset: seq<WriteElement>, full: seq<WriteElement>) {
    entry >= 0 ==> |full| == |wset| && forall j :: 0 <= j < |wset| ==> Extends(wset[j], full[j], width)
  }

  /** The bytes that a record not yet installed will keep are those of the whole value. */
  ghost predicate TailInv(table: seq<Tuple>, entry: int, lo: nat, wset: seq<WriteElement>, full: seq<WriteElement>) {
    entry >= 0 ==>
      forall j :: lo <= j < |wset| && j < |full| && wset[j].key < |table| ==>
        Over(table[wset[j].key].val, wset[j].val) == full[j].val
  }

  /** Its other entries are decided, and the committed ones have been installed everywhere. */
  ghost predicate PastInv(log: seq<Entry>, meta: seq<Meta>, t: nat, entry: int, mrctid: Tidword) {
    forall j :: 0 <= j < |log| && log[j].thread == t ==>
      && (entry >= 0 ==> j <= entry)
      && (log[j].outcome.Pending? ==> j == entry)
      && (log[j].outcome.Done? ==> Ver(log[j].outcome.word) <= Ver(mrctid))
      && (j != entry && !log[j].outcome.Gone? ==>
            forall k :: k in log[j].puts && k < |meta| ==> j <= meta[k].src)
  }

  /** `w` is the commit TID of entry `i`, a commit of executor `t`. */
  predicate CommittedWord(log: seq<Entry>, t: nat, i: int, w: Tidword) {
    0 <= i < |log| && log[i].thread == t && log[i].outcome.Done? && log[i].outcome.word == w
  }

  /** The executor's previous TID is zero or that of one of its commits. */
  ghost predicate MineInv(log: seq<Entry>, t: nat, mrctid: Tidword) {
    mrctid == ZERO || exists i :: CommittedWord(log, t, i, mrctid)
  }

  /** The version of `word` is the one that log position `src` installed on `key` (-1: the initial one). */
  ghost predicate Installed(init: seq<Tuple>, log: seq<Entry>, key: nat, word: Tidword, src: int) {
    && -1 <= src < |log| && key < |init|
    && (src < 0 ==> Ver(word) == Ver(init[key].word))
    && (src >= 0 ==> log[src].outcome.Done? && key in log[src].puts && Ver(word) == Ver(log[src].outcome.word))
  }

  /** ... and `val` is the value that came with it. */
  ghost predicate Source(init: seq<Tuple>, log: seq<Entry>, key: nat, val: Value, word: Tidword, src: int) {
    && Installed(init, log, key, word, src)
    && val == if src < 0 then init[key].val else log[src].puts[key]
  }

  /** A read-set element is exact, and current for as long as the record keeps its version. */
  ghost predicate ReadInv(sh: Shared, r: ReadElement, src: int) {
    && r.key < |sh.table| == |sh.meta|
    && Source(sh.init, sh.log, r.key, r.val, r.word, src)
    && Ver(r.word) <= Ver(sh.table[r.key].word)
    && (Ver(r.word) == Ver(sh.table[r.key].word) ==> src == sh.meta[r.key].src)
    && r.word.epoch <= sh.epoch
  }

  ghost predicate ReadsInv(sh: Shared, rset: seq<ReadElement>, srcs: seq<int>) {
    && |srcs| == |rset|
    && (forall i :: 0 <= i < |rset| ==> ReadInv(sh, rset[i], srcs[i]))
  }

  /** A value being copied is the current one unless the record has been overwritten since. */
  ghost predicate CopyInv(table: seq<Tuple>, meta: seq<Meta>, pc: Pc) {
    pc.ReadCopy? && pc.key < |table| == |meta| ==>
      && Ver(pc.expected) <= Ver(table[pc.key].word)
      && (Ver(pc.expected) == Ver(table[pc.key].word) && !meta[pc.key].dirty ==>
            |pc.buf| <= |table[pc.key].val| && pc.buf == table[pc.key].val[..|pc.buf|])
  }

  ghost predicate MaxInv(epoch: EpochField, l: Local) {
    && l.maxw == MaxOf(l.over) && l.maxr == MaxOf(l.seen)
    && l.maxw.epoch <= epoch && l.maxr.epoch <= epoch && l.mrctid.epoch <= epoch
  }

  /** The status agrees with the phase, and the maxima start afresh in every transaction. */
  predicate PhaseInv(pc: Pc, status: Status, overs: nat, seens: nat, wn: nat, rn: nat) {
    && ((pc.Ready? || pc.ReadLoad? || pc.ReadCopy? || pc.Scan?) && status.InFlight? ==> overs == seens == 0)
    && (pc.Failed? || pc.UnlockLoad? || pc.UnlockStore? ==> status.Aborted?)
    && (pc.Choose? || pc.Install? ==> status.Committed?)
    && (Committing(pc) && !pc.Choose? ==> status.InFlight?)
    && (Committing(pc) ==> overs == Locked(pc, wn) && seens == Checked(pc, rn))
  }

  /** The recorded words have the versions of the locked records, which nobody else can change. */
  ghost predicate OverInv(table: seq<Tuple>, pc: Pc, over: seq<Tidword>, wset: seq<WriteElement>) {
    Committing(pc) ==>
      forall j :: 0 <= j < |over| && j < |wset| && wset[j].key < |table| ==>
        Ver(over[j]) == Ver(table[wset[j].key].word)
  }

  ghost predicate SeenInv(pc: Pc, seen: seq<Tidword>, rset: seq<ReadElement>) {
    Committing(pc) ==>
      forall j :: 0 <= j < |seen| && j < |rset| ==> Ver(seen[j]) == Ver(rset[j].word)
  }

  /** Everything read or locked lies in the epoch of the serialization point or before. */
  ghost predicate EpochInv(log: seq<Entry>, local: seq<EpochField>, t: nat, l: Local) {
    0 <= l.entry < |log| && t < |local| ==>
      var e := log[l.entry].epoch;
      && l.maxw.epoch <= e && l.maxr.epoch <= e && l.mrctid.epoch <= e
      && (forall i :: 0 <= i < |l.rset| ==> l.rset[i].word.epoch <= e)
      && (l.pc.EpochStore? ==> l.pc.e == e)
      && (l.pc.Validate? || l.pc.Choose? ==> local[t] == e)
  }

  /** What is still to be installed is newer than what it replaces. */
  ghost predicate NewerInv(table: seq<Tuple>, pc: Pc, wset: seq<WriteElement>, mrctid: Tidword) {
    pc.Install? ==>
      forall j :: pc.i <= j < |wset| && wset[j].key < |table| ==> Ver(table[wset[j].key].word) < Ver(mrctid)
  }

  /** No transaction serialized between the source of a read and log position `n` writes the key and survives. */
  ghost predicate ReadOk(log: seq<Entry>, n: int, key: nat, src: int) {
    && src < n <= |log|
    && forall j :: 0 <= j < n && src < j && key in log[j].puts ==> log[j].outcome.Gone?
  }

  ghost predicate ReadsOk(log: seq<Entry>, entry: int, rset: seq<ReadElement>, srcs: seq<int>, n: nat) {
    && |srcs| == |rset|
    && (entry >= 0 ==>
          && (forall i :: 0 <= i < |srcs| ==> srcs[i] < entry)
          && (forall i :: 0 <= i < n && i < |rset| ==> ReadOk(log, entry, rset[i].key, srcs[i])))
  }

  /** The records that a serialized transaction holds were last written by earlier ones. */
  ghost predicate HeldInv(meta: seq<Meta>, wset: seq<WriteElement>, lo: nat, hi: nat, entry: int) {
    entry >= 0 ==>
      forall j :: lo <= j < hi && j < |wset| && wset[j].key < |meta| ==> meta[wset[j].key].src < entry
  }

  /** The records already installed have seen the transaction. */
  ghost predicate SettledInv(meta: seq<Meta>, pc: Pc, wset: seq<WriteElement>, entry: int) {
    pc.Install? ==> forall j :: 0 <= j < pc.i && j < |wset| && wset[j].key < |meta| ==> entry <= meta[wset[j].key].src
  }

  /** Only the record being installed has bytes that no commit has finished writing. */
  ghost predicate BytesInv(table: seq<Tuple>, meta: seq<Meta>, t: nat, pc: Pc, wset: seq<WriteElement>) {
    && (forall k :: 0 <= k < |meta| && meta[k].owner == t && meta[k].dirty ==>
          pc.Install? && pc.i < |wset| && wset[pc.i].key == k)
    && (pc.Install? && pc.i < |wset| && wset[pc.i].key < |table| ==>
          var val := table[wset[pc.i].key].val;
          && pc.b <= |val| && pc.b <= |wset[pc.i].val|
          && val[..pc.b] == wset[pc.i].val[..pc.b])
  }

  ghost predicate LocalInv(sh: Shared, t: nat, l: Local) {
    var lo, hi := Lo(l.pc), Hi(l.pc, |l.wset|);
    && LocalShape(|sh.table|, sh.width, t, l)
    && LocksInv(sh.meta, t, l.wset, lo, hi) && UnlockInv(sh.table, l.pc, l.wset)
    && EntryInv(sh.log, t, l) && FullInv(l.entry, sh.width, l.wset, l.full)
    && TailInv(sh.table, l.entry, lo, l.wset, l.full)
    && PastInv(sh.log, sh.meta, t, l.entry, l.mrctid)
    && MineInv(sh.log, t, l.mrctid)
    && ReadsInv(sh, l.rset, l.srcs) && CopyInv(sh.table, sh.meta, l.pc)
    && MaxInv(sh.epoch, l) && PhaseInv(l.pc, l.status, |l.over|, |l.seen|, |l.wset|, |l.rset|)
    && OverInv(sh.table, l.pc, l.over, l.wset) && SeenInv(l.pc, l.seen, l.rset)
    && EpochInv(sh.log, sh.local, t, l) && NewerInv(sh.table, l.pc, l.wset, l.mrctid)
    && ReadsOk(sh.log, l.entry, l.rset, l.srcs, Checked(l.pc, |l.rset|))
    && HeldInv(sh.meta, l.wset, lo, hi, l.entry)
    && SettledInv(sh.meta, l.pc, l.wset, l.entry)
    && BytesInv(sh.table, sh.meta, t, l.pc, l.wset)
  }

  // ----- the shared state -----

  ghost predicate RecordInv(sh: Shared, k: nat)
    requires SharedShape(sh) && k < |sh.table|
  {
    var w, m := sh.table[k].word, sh.meta[k];
    && (w.lock <==> m.owner >= 0) && -1 <= m.owner < |sh.local| && (m.dirty ==> m.owner >= 0)
    && w.epoch <= sh.epoch && Ver(sh.init[k].word) <= Ver(w)
    && Installed(sh.init, sh.log, k, w, m.src)
    && (!m.dirty ==> Source(sh.init, sh.log, k, sh.table[k].val, w, m.src))
  }

  /** What holds of a committed transaction. */
  ghost predicate DoneInv(init: seq<Tuple>, log: seq<Entry>, j: nat)
    requires j < |log| && log[j].outcome.Done?
  {
    var e, o := log[j], log[j].outcome;
    && !o.word.lock && o.word.epoch == e.epoch && |e.srcs| == |e.gets| == |o.seen|
    && (forall i :: 0 <= i < |e.gets| ==>
          && ReadOk(log, j, e.gets[i].key, e.srcs[i])
          && Source(init, log, e.gets[i].key, e.gets[i].val, e.gets[i].word, e.srcs[i])
          && Ver(e.gets[i].word) == Ver(o.seen[i]))
    && ValidTid(o.word, o.over, o.seen, o.prev, e.epoch)
    && (forall v: Tidword | ValidTid(v, o.over, o.seen, o.prev, e.epoch) :: Ver(o.word) <= Ver(v))
    && (forall k :: k in e.puts && k < |init| ==> Ver(init[k].word) < Ver(o.word))
  }

  /** The words that a committed transaction took its write locks on are those of the commits that it overwrote. */
  ghost predicate OversInv(init: seq<Tuple>, log: seq<Entry>, j: nat)
    requires j < |log| && log[j].outcome.Done?
  {
    var e, over := log[j], log[j].outcome.over;
    && |over| == |e.writes| == |e.bases|
    && (forall i :: 0 <= i < |over| ==> Installed(init, log, e.writes[i].key, over[i], e.bases[i]))
  }

  /** The previous TID of a committed transaction is that of the last commit of its executor before it, or zero. */
  ghost predicate PrevInv(log: seq<Entry>, j: nat)
    requires j < |log| && log[j].outcome.Done?
  {
    var t, prev := log[j].thread, log[j].outcome.prev;
    && (prev == ZERO || exists i :: i < j && CommittedWord(log, t, i, prev))
    && (forall i :: 0 <= i < j && log[i].thread == t && log[i].outcome.Done? ==>
          Ver(log[i].outcome.word) <= Ver(prev))
  }

  /** The value that log position `src` left on a key (-1: the initial one). */
  function ValueAt(init: seq<Tuple>, log: seq<Entry>, key: nat, src: int): Value
    requires key < |init|
    requires 0 <= src < |log| ==> key in log[src].puts
  {
    if 0 <= src < |log| then log[src].puts[key] else init[key].val
  }

  /** Write `i` of entry `j` is over the last value before it: no surviving entry in between has written the key. */
  ghost predicate BaseInv(init: seq<Tuple>, log: seq<Entry>, j: nat, i: nat)
    requires j < |log| && i < |log[j].writes| && i < |log[j].bases|
  {
    var e, w, src := log[j], log[j].writes[i], log[j].bases[i];
    && w.key < |init| && -1 <= src && ReadOk(log, j, w.key, src)
    && (src >= 0 ==> log[src].outcome.Done? && w.key in log[src].puts)
    && w.key in e.puts && e.puts[w.key] == Over(ValueAt(init, log, w.key, src), w.val)
  }

  ghost predicate BasesInv(init: seq<Tuple>, log: seq<Entry>, j: nat)
    requires j < |log|
  {
    && |log[j].bases| == |log[j].writes|
    && (forall k :: k in log[j].puts ==> exists i :: 0 <= i < |log[j].writes| && log[j].writes[i].key == k)
    && (forall i :: 0 <= i < |log[j].writes| ==> BaseInv(init, log, j, i))
  }

  ghost predicate LogInv(sh: Shared, j: nat)
    requires j < |sh.log|
  {
    var e := sh.log[j];
    && BasesInv(sh.init, sh.log, j)
    && e.thread < |sh.local| && e.epoch <= sh.epoch
    && ReadShape(|sh.table|, e.gets, e.srcs)
    && (forall k :: k in e.puts ==> k < |sh.table|)
    && (e.outcome.Done? ==> DoneInv(sh.init, sh.log, j) && OversInv(sh.init, sh.log, j) && PrevInv(sh.log, j))
  }

  /** A surviving writer that a record has not seen yet still holds the record's lock. */
  ghost predicate LiveInv(meta: seq<Meta>, log: seq<Entry>, j: nat, k: nat) {
    j < |log| && k < |meta| && meta[k].src < j && k in log[j].puts && !log[j].outcome.Gone? ==>
      meta[k].owner == log[j].thread
  }

  /** Log order, epoch order and version order agree on two entries. */
  ghost predicate Ordered(log: seq<Entry>, i: int, j: int) {
    0 <= i < j < |log| ==>
      && log[i].epoch <= log[j].epoch
      && (log[i].outcome.Done? && log[j].outcome.Done? ==>
            && (log[i].thread == log[j].thread ==> Ver(log[i].outcome.word) < Ver(log[j].outcome.word))
            && (forall k :: k in log[i].puts && k in log[j].puts ==>
                  Ver(log[i].outcome.word) < Ver(log[j].outcome.word)))
  }

  ghost predicate OrdersInv(log: seq<Entry>) {
    forall i, j :: Ordered(log, i, j)
  }

  ghost predicate SharedInv(sh: Shared) {
    && SharedShape(sh)
    && (forall k :: 0 <= k < |sh.table| ==> RecordInv(sh, k))
    && (forall j :: 0 <= j < |sh.log| ==> LogInv(sh, j))
    && (forall j, k :: LiveInv(sh.meta, sh.log, j, k))
    && OrdersInv(sh.log)
  }

  // ----- epochs -----

  predicate SlotInv(epoch: EpochField, local: EpochField, t: nat, pc: Pc) {
    && local <= epoch && (t >= 1 ==> epoch - local <= 1)
    && (pc.EpochStore? ==> local <= pc.e <= epoch)
  }

  /** A slot that a scan has checked holds the epoch of the scan, and so does a value about to be stored in it. */
  predicate ScannedInv(scan: Pc, u: nat, local: EpochField, pc: Pc) {
    scan.Scan? && 1 <= u < scan.i ==> local == scan.now && (pc.EpochStore? ==> pc.e == scan.now)
  }

  /** Every slot is at most one epoch behind; during a scan, the slots already checked are not behind. */
  ghost predicate LagInv(s: State) {
    && |s.sh.local| == |s.thr|
    && (forall t :: 0 <= t < |s.thr| ==> SlotInv(s.sh.epoch, s.sh.local[t], t, s.thr[t].pc))
    && (forall t, u :: 0 <= t < |s.thr| && 0 <= u < |s.thr| ==> ScannedInv(s.thr[t].pc, u, s.sh.local[u], s.thr[u].pc))
    && (forall t :: 0 <= t < |s.thr| && s.thr[t].pc.Scan? ==> s.thr[t].pc.now == s.sh.epoch)
  }

  ghost predicate Inv(s: State) {
    && SharedInv(s.sh) && LagInv(s)
    && (forall t :: 0 <= t < |s.thr| ==> LocalInv(s.sh, t, s.thr[t]))
  }

  // ----- what one executor may do to another -----

  /** Entries are appended, and pending ones decided; nothing else changes. */
  ghost predicate LogMoves(log: seq<Entry>, log': seq<Entry>) {
    && |log| <= |log'|
    && (forall j :: 0 <= j < |log| ==>
          && log'[j] == log[j].(outcome := log'[j].outcome)
          && (log'[j].outcome == log[j].outcome || log[j].outcome.Pending?))
  }

  /** ... by executors other than `u`. */
  ghost predicate LogGrows(log: seq<Entry>, log': seq<Entry>, u: nat) {
    && LogMoves(log, log')
    && (forall j :: 0 <= j < |log| && log[j].thread == u ==> log'[j] == log[j])
    && (forall j :: |log| <= j < |log'| ==> log'[j].thread != u)
  }

  /** Others leave the records that `u` owns alone, and overwrite a value only under a new version. */
  ghost predicate RecordMoves(r: Tuple, m: Meta, r': Tuple, m': Meta, u: nat) {
    && (m'.owner == u <==> m.owner == u)
    && (m.owner == u ==> r' == r && m' == m)
    && Ver(r.word) <= Ver(r'.word) && m.src <= m'.src && |r'.val| == |r.val|
    && (Ver(r.word) == Ver(r'.word) ==> m'.src == m.src && (!m'.dirty ==> !m.dirty && r'.val == r.val))
  }

  ghost predicate TableMoves(sh: Shared, sh': Shared, u: nat) {
    && |sh'.table| == |sh'.meta| == |sh.table| == |sh.meta|
    && (forall k :: 0 <= k < |sh.table| ==> RecordMoves(sh.table[k], sh.meta[k], sh'.table[k], sh'.meta[k], u))
  }

  /** The steps of others, as executor `u` sees them. */
  ghost predicate Rely(sh: Shared, sh': Shared, u: nat) {
    && sh'.init == sh.init && sh'.width == sh.width && sh.epoch <= sh'.epoch
    && |sh'.local| == |sh.local| && (u < |sh.local| ==> sh'.local[u] == sh.local[u])
    && LogGrows(sh.log, sh'.log, u) && TableMoves(sh, sh', u)
  }

  lemma SourceMoves(init: seq<Tuple>, log: seq<Entry>, log': seq<Entry>, key: nat, val: Value, word: Tidword, src: int)
    requires LogMoves(log, log') && Source(init, log, key, val, word, src)
    ensures Source(init, log', key, val, word, src)
  {
    if src >= 0 {
      assert log'[src].outcome == log[src].outcome;
    }
  }

  lemma ReadOkMoves(log: seq<Entry>, log': seq<Entry>, n: int, key: nat, src: int)
    requires LogMoves(log, log') && ReadOk(log, n, key, src)
    ensures ReadOk(log', n, key, src)
  {
    forall j | 0 <= j < n && src < j && key in log'[j].puts ensures log'[j].outcome.Gone? {
      assert log[j].outcome.Gone?;
      assert log'[j].outcome == log[j].outcome;
    }
  }

  lemma InstalledMoves(init: seq<Tuple>, log: seq<Entry>, log': seq<Entry>, key: nat, word: Tidword, src: int)
    requires LogMoves(log, log') && Installed(init, log, key, word, src)
    ensures Installed(init, log', key, word, src)
  {
    if src >= 0 {
      assert log'[src].outcome == log[src].outcome;
    }
  }

  lemma MineMoves(log: seq<Entry>, log': seq<Entry>, t: nat, mrctid: Tidword)
    requires LogMoves(log, log') && MineInv(log, t, mrctid)
    ensures MineInv(log', t, mrctid)
  {
    if mrctid != ZERO {
      var i :| CommittedWord(log, t, i, mrctid);
      assert log'[i].outcome == log[i].outcome;
      assert CommittedWord(log', t, i, mrctid);
    }
  }

  lemma BasesMove(init: seq<Tuple>, log: seq<Entry>, log': seq<Entry>, j: nat)
    requires LogMoves(log, log') && j < |log| && BasesInv(init, log, j)
    ensures BasesInv(init, log', j)
  {
    forall i | 0 <= i < |log'[j].writes| ensures BaseInv(init, log', j, i) {
      assert BaseInv(init, log, j, i);
      var src := log[j].bases[i];
      ReadOkMoves(log, log', j, log[j].writes[i].key, src);
      if src >= 0 {
        assert log'[src].outcome == log[src].outcome;
      }
    }
  }

  /** The read set of an executor stays exact while the others run. */
  lemma RelyReads(sh: Shared, sh': Shared, u: nat, rset: seq<ReadElement>, srcs: seq<int>)
    requires Rely(sh, sh', u) && ReadsInv(sh, rset, srcs)
    ensures ReadsInv(sh', rset, srcs)
  {
    forall i | 0 <= i < |rset| ensures ReadInv(sh', rset[i], srcs[i]) {
      var r := rset[i];
      assert ReadInv(sh, r, srcs[i]);
      SourceMoves(sh.init, sh.log, sh'.log, r.key, r.val, r.word, srcs[i]);
      assert RecordMoves(sh.table[r.key], sh.meta[r.key], sh'.table[r.key], sh'.meta[r.key], u);
    }
  }

  lemma RelyReadsOk(log: seq<Entry>, log': seq<Entry>, entry: int, rset: seq<ReadElement>, srcs: seq<int>, n: nat)
    requires LogMoves(log, log') && ReadsOk(log, entry, rset, srcs, n)
    ensures ReadsOk(log', entry, rset, srcs, n)
  {
    if entry >= 0 {
      forall i | 0 <= i < n && i < |rset| ensures ReadOk(log', entry, rset[i].key, srcs[i]) {
        ReadOkMoves(log, log', entry, rset[i].key, srcs[i]);
      }
    }
  }

  /** The records that an executor holds do not change while the others run. */
  lemma RelyHeld(sh: Shared, sh': Shared, u: nat, wset: seq<WriteElement>, lo: nat, hi: nat)
    requires Rely(sh, sh', u) && LocksInv(sh.meta, u, wset, lo, hi)
    ensures LocksInv(sh'.meta, u, wset, lo, hi)
    ensures forall j :: lo <= j < hi && j < |wset| && wset[j].key < |sh.table| ==>
              sh'.table[wset[j].key] == sh.table[wset[j].key] && sh'.meta[wset[j].key] == sh.meta[wset[j].key]
  {
    forall k | 0 <= k < |sh.meta|
      ensures RecordMoves(sh.table[k], sh.meta[k], sh'.table[k], sh'.meta[k], u) {}
  }

  lemma RelyPast(sh: Shared, sh': Shared, u: nat, entry: int, mrctid: Tidword)
    requires Rely(sh, sh', u) && PastInv(sh.log, sh.meta, u, entry, mrctid)
    ensures PastInv(sh'.log, sh'.meta, u, entry, mrctid)
  {
    forall j | 0 <= j < |sh'.log| && sh'.log[j].thread == u ensures j < |sh.log| && sh'.log[j] == sh.log[j] {}
    forall k | 0 <= k < |sh.meta| ensures sh.meta[k].src <= sh'.meta[k].src {
      assert RecordMoves(sh.table[k], sh.meta[k], sh'.table[k], sh'.meta[k], u);
    }
  }

  /** The invariant of an executor is stable under the steps of the others. */
  lemma RelyKeeps(sh: Shared, sh': Shared, u: nat, l: Local)
    requires Rely(sh, sh', u) && LocalInv(sh, u, l)
    ensures LocalInv(sh', u, l)
  {
    RelyHeld(sh, sh', u, l.wset, Lo(l.pc), Hi(l.pc, |l.wset|));
    RelyPast(sh, sh', u, l.entry, l.mrctid);
    MineMoves(sh.log, sh'.log, u, l.mrctid);
    RelyReads(sh, sh', u, l.rset, l.srcs);
    RelyReadsOk(sh.log, sh'.log, l.entry, l.rset, l.srcs, Checked(l.pc, |l.rset|));
    RelyKeepsHeld(sh, sh', u, l);
    RelySettled(sh, sh', u, l);
    RelyKeepsRest(sh, sh', u, l);
  }

  lemma RelySettled(sh: Shared, sh': Shared, u: nat, l: Local)
    requires Rely(sh, sh', u) && SettledInv(sh.meta, l.pc, l.wset, l.entry)
    ensures SettledInv(sh'.meta, l.pc, l.wset, l.entry)
  {
    forall k | 0 <= k < |sh.meta| ensures sh.meta[k].src <= sh'.meta[k].src {
      assert RecordMoves(sh.table[k], sh.meta[k], sh'.table[k], sh'.meta[k], u);
    }
  }

  lemma RelyKeepsHeld(sh: Shared, sh': Shared, u: nat, l: Local)
    requires Rely(sh, sh', u) && LocalInv(sh, u, l)
    ensures UnlockInv(sh'.table, l.pc, l.wset)
    ensures OverInv(sh'.table, l.pc, l.over, l.wset) && NewerInv(sh'.table, l.pc, l.wset, l.mrctid)
    ensures HeldInv(sh'.meta, l.wset, Lo(l.pc), Hi(l.pc, |l.wset|), l.entry)
    ensures TailInv(sh'.table, l.entry, Lo(l.pc), l.wset, l.full)
  {
    hide LocksInv, PastInv, ReadsInv, CopyInv, MaxInv, EpochInv, ReadsOk, SettledInv, FullInv, Ver;
    RelyHeld(sh, sh', u, l.wset, Lo(l.pc), Hi(l.pc, |l.wset|));
  }

  lemma RelyKeepsRest(sh: Shared, sh': Shared, u: nat, l: Local)
    requires Rely(sh, sh', u) && LocalInv(sh, u, l)
    ensures CopyInv(sh'.table, sh'.meta, l.pc) && BytesInv(sh'.table, sh'.meta, u, l.pc, l.wset)
    ensures EntryInv(sh'.log, u, l) && EpochInv(sh'.log, sh'.local, u, l) && MaxInv(sh'.epoch, l)
  {
    hide LocksInv, PastInv, ReadsInv, PhaseInv, OverInv, NewerInv, ReadsOk, HeldInv, SettledInv, FullInv, TailInv,
      Less, Ver;
    RelyHeld(sh, sh', u, l.wset, Lo(l.pc), Hi(l.pc, |l.wset|));
    if l.pc.ReadCopy? {
      var k := l.pc.key;
      assert RecordMoves(sh.table[k], sh.meta[k], sh'.table[k], sh'.meta[k], u);
    }
    forall k | 0 <= k < |sh.meta| && sh'.meta[k].owner == u
      ensures sh'.meta[k] == sh.meta[k] && sh'.table[k] == sh.table[k]
    {
      assert RecordMoves(sh.table[k], sh.meta[k], sh'.table[k], sh'.meta[k], u);
    }
  }
}
