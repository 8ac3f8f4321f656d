/// The choice of the commit TID, the install phase and the epoch leader keep the invariant; so does every run.

module SiloInstall {
  import opened Tidwords
  import opened Silo
  import opened SiloInvariant
  import opened SiloSteps
  import opened SiloCommit

  // ----- the commit TID -----

  /** The chosen word is above everything the transaction read, everything it overwrites and everything its
      worker committed before, in the epoch of the serialization point. */
  lemma ChosenWord(sh: Shared, t: nat, l: Local)
    requires SharedInv(sh) && LocalInv(sh, t, l) && l.pc.Choose? && TickEnabled(sh, t, l)
    ensures var word := TickChoose(sh, t, l).l.mrctid;
            && !word.lock && word.epoch == sh.log[l.entry].epoch == sh.local[t]
            && ValidTid(word, l.over, l.seen, l.mrctid, word.epoch)
            && (forall v: Tidword | ValidTid(v, l.over, l.seen, l.mrctid, word.epoch) :: Ver(word) <= Ver(v))
            && (forall j :: 0 <= j < |l.wset| ==> Ver(sh.table[l.wset[j].key].word) < Ver(word))
  {
    hide LocksInv, PastInv, ReadsInv, CopyInv, SeenInv, NewerInv, ReadsOk, HeldInv, SettledInv, BytesInv,
      EntryInv, UnlockInv, FullInv, TailInv, RecordInv, LogInv, OrdersInv, SharedShape, Less, Ver, CommitWord;
    var e := sh.local[t];
    CommitTidIsLeast(l.over, l.seen, l.mrctid, e);
    CommitWordOverMaxima(l.maxw, l.maxr, l.mrctid, e);
    forall j | 0 <= j < |l.wset|
      ensures Ver(sh.table[l.wset[j].key].word) < Ver(TickChoose(sh, t, l).l.mrctid)
    {
      assert l.over[j] in l.over;
    }
  }

  lemma ChooseDone(sh: Shared, t: nat, l: Local)
    requires SharedInv(sh) && LocalInv(sh, t, l) && l.pc.Choose? && TickEnabled(sh, t, l)
    ensures DoneInv(sh.init, TickChoose(sh, t, l).sh.log, l.entry)
  {
    hide Less, Ver, LocksInv, PastInv, BytesInv, SettledInv, NewerInv, HeldInv, RecordInv, LiveInv, OrdersInv,
      LocalShape, SharedShape, UnlockInv, CopyInv;
    var log' := TickChoose(sh, t, l).sh.log;
    var e, o := log'[l.entry], log'[l.entry].outcome;
    ChosenWord(sh, t, l);
    assert LogMoves(sh.log, log');
    forall i | 0 <= i < |e.gets|
      ensures ReadOk(log', l.entry, e.gets[i].key, e.srcs[i])
      ensures Source(sh.init, log', e.gets[i].key, e.gets[i].val, e.gets[i].word, e.srcs[i])
      ensures Ver(e.gets[i].word) == Ver(o.seen[i])
    {
      ReadOkMoves(sh.log, log', l.entry, l.rset[i].key, l.srcs[i]);
      assert ReadInv(sh, l.rset[i], l.srcs[i]);
      SourceMoves(sh.init, sh.log, log', l.rset[i].key, l.rset[i].val, l.rset[i].word, l.srcs[i]);
    }
    ChooseAboveInit(sh, t, l, o.word);
  }

  /** The commit that a write goes over is the last one installed on the record, which nobody else can change. */
  lemma BaseIsInstalled(sh: Shared, t: nat, l: Local, i: nat)
    requires SharedInv(sh) && LocalInv(sh, t, l) && l.pc.Choose? && i < |l.wset|
    ensures 0 <= l.entry < |sh.log| && i < |sh.log[l.entry].bases| && sh.log[l.entry].writes == l.wset
    ensures l.wset[i].key < |sh.meta| && sh.log[l.entry].bases[i] == sh.meta[l.wset[i].key].src
  {
    hide Less, Ver, ReadsInv, CopyInv, MaxInv, PhaseInv, OverInv, SeenInv, EpochInv, NewerInv, ReadsOk, SettledInv;
    hide BytesInv, UnlockInv, FullInv, TailInv, MineInv, OrdersInv, DoneInv, OversInv, PrevInv, Over, Puts;
    var k := l.wset[i].key;
    assert LogInv(sh, l.entry);
    assert BaseInv(sh.init, sh.log, l.entry, i);
    assert sh.meta[k].owner == t && RecordInv(sh, k);
    var base := sh.log[l.entry].bases[i];
    assert base >= 0 ==> LiveInv(sh.meta, sh.log, base, k);
  }

  lemma ChooseOvers(sh: Shared, t: nat, l: Local)
    requires SharedInv(sh) && LocalInv(sh, t, l) && l.pc.Choose? && TickEnabled(sh, t, l)
    ensures OversInv(sh.init, TickChoose(sh, t, l).sh.log, l.entry)
  {
    hide Less, Ver, CommitWord, LocksInv, PastInv, ReadsInv, CopyInv, MaxInv, SeenInv, EpochInv, NewerInv, ReadsOk;
    hide HeldInv, SettledInv, BytesInv, UnlockInv, FullInv, TailInv, MineInv, OrdersInv, LiveInv, DoneInv, BaseInv;
    var log' := TickChoose(sh, t, l).sh.log;
    assert LogInv(sh, l.entry) && LogMoves(sh.log, log');
    forall i | 0 <= i < |l.over|
      ensures Installed(sh.init, log', l.wset[i].key, l.over[i], sh.log[l.entry].bases[i])
    {
      BaseIsInstalled(sh, t, l, i);
      var k := l.wset[i].key;
      assert RecordInv(sh, k);
      assert Installed(sh.init, sh.log, k, l.over[i], sh.meta[k].src);
      InstalledMoves(sh.init, sh.log, log', k, l.over[i], sh.meta[k].src);
    }
  }

  lemma ChoosePrev(sh: Shared, t: nat, l: Local)
    requires SharedInv(sh) && LocalInv(sh, t, l) && l.pc.Choose? && TickEnabled(sh, t, l)
    ensures PrevInv(TickChoose(sh, t, l).sh.log, l.entry) && LastCommits(sh.log, TickChoose(sh, t, l).sh.log)
  {
    hide SharedInv, Less, Ver, CommitWord, LocksInv, ReadsInv, CopyInv, MaxInv, OverInv, SeenInv, EpochInv, NewerInv;
    hide ReadsOk, HeldInv, SettledInv, BytesInv, UnlockInv, FullInv, TailInv;
    var log' := TickChoose(sh, t, l).sh.log;
    if l.mrctid != ZERO {
      var i :| CommittedWord(sh.log, t, i, l.mrctid);
      assert i < l.entry && CommittedWord(log', t, i, l.mrctid);
    }
  }

  lemma ChooseMine(sh: Shared, t: nat, l: Local)
    requires LocalInv(sh, t, l) && l.pc.Choose? && TickEnabled(sh, t, l)
    ensures var p := TickChoose(sh, t, l); MineInv(p.sh.log, t, p.l.mrctid)
  {
    hide Less, Ver, CommitWord, Puts;
    var p := TickChoose(sh, t, l);
    assert CommittedWord(p.sh.log, t, l.entry, p.l.mrctid);
  }

  lemma ChooseAboveInit(sh: Shared, t: nat, l: Local, word: Tidword)
    requires SharedInv(sh) && LocalInv(sh, t, l) && l.entry >= 0
    requires forall j :: 0 <= j < |l.wset| ==> Ver(sh.table[l.wset[j].key].word) < Ver(word)
    ensures forall k :: k in Puts(l.full) ==>
              k < |sh.table| && Ver(sh.init[k].word) <= Ver(sh.table[k].word) < Ver(word)
  {
    hide Ver;
    PutsOfFull(l.wset, l.full);
    forall k | k in Puts(l.full)
      ensures k < |sh.table| && Ver(sh.init[k].word) <= Ver(sh.table[k].word) < Ver(word)
    {
      var j :| 0 <= j < |l.wset| && l.wset[j].key == k;
      assert RecordInv(sh, k);
    }
  }

  /** Survivors among the writers of a record that `t` holds: the earlier are installed, later ones do not exist. */
  lemma HeldWriters(sh: Shared, t: nat, l: Local, i: int, k: nat)
    requires SharedInv(sh) && LocalInv(sh, t, l) && l.entry >= 0 && k < |sh.table| && sh.meta[k].owner == t
    requires sh.meta[k].src < l.entry && 0 <= i < |sh.log| && i != l.entry
    requires k in sh.log[i].puts && sh.log[i].outcome.Done?
    ensures i < l.entry && Ver(sh.log[i].outcome.word) <= Ver(sh.table[k].word)
  {
    hide LocksInv, ReadsInv, CopyInv, MaxInv, PhaseInv, OverInv, SeenInv, EpochInv, NewerInv, ReadsOk, HeldInv,
      SettledInv, BytesInv, EntryInv, UnlockInv, FullInv, LocalShape, LogInv, Ver;
    assert LiveInv(sh.meta, sh.log, i, k);
    assert i <= sh.meta[k].src;
    assert RecordInv(sh, k);
    assert Ordered(sh.log, i, sh.meta[k].src);
  }

  lemma ChooseOrders(sh: Shared, t: nat, l: Local)
    requires SharedInv(sh) && LocalInv(sh, t, l) && l.pc.Choose? && TickEnabled(sh, t, l)
    ensures OrdersInv(TickChoose(sh, t, l).sh.log)
  {
    hide LocksInv, PastInv, ReadsInv, CopyInv, MaxInv, PhaseInv, OverInv, SeenInv, EpochInv, NewerInv, ReadsOk,
      HeldInv, SettledInv, BytesInv, EntryInv, UnlockInv, TailInv, RecordInv, LogInv, LiveInv, CommitWord, Puts;
    var log' := TickChoose(sh, t, l).sh.log;
    var word := log'[l.entry].outcome.word;
    ChosenWord(sh, t, l);
    ChooseAboveInit(sh, t, l, word);
    PutsOfFull(l.wset, l.full);
    forall i, j ensures Ordered(log', i, j) {
      assert Ordered(sh.log, i, j);
      if 0 <= i < j < |log'| && log'[i].outcome.Done? && log'[j].outcome.Done? && (i == l.entry || j == l.entry) {
        ChooseOrdersAt(sh, t, l, i, j, word);
      }
    }
  }

  lemma ChooseOrdersAt(sh: Shared, t: nat, l: Local, i: int, j: int, word: Tidword)
    requires SharedInv(sh) && LocalInv(sh, t, l) && l.pc.Choose? && TickEnabled(sh, t, l)
    requires word == TickChoose(sh, t, l).l.mrctid && Ver(l.mrctid) < Ver(word)
    requires forall k :: k in Puts(l.full) ==> k < |sh.table| && Ver(sh.table[k].word) < Ver(word)
    requires 0 <= i < j < |sh.log| && (i == l.entry || j == l.entry)
    requires i != l.entry ==> sh.log[i].outcome.Done?
    requires j != l.entry ==> sh.log[j].outcome.Done?
    ensures Ordered(TickChoose(sh, t, l).sh.log, i, j)
  {
    hide Less, Ver;
    var log' := TickChoose(sh, t, l).sh.log;
    var o := if i == l.entry then j else i;
    assert Ordered(sh.log, i, j);
    forall k | k in Puts(l.full) && k in sh.log[o].puts
      ensures o < l.entry && Ver(sh.log[o].outcome.word) < Ver(word)
    {
      HoldsPut(sh, t, l, k);
      HeldWriters(sh, t, l, o, k);
    }
  }

  /** While nothing is installed yet, the executor holds every record it writes. */
  lemma HoldsPut(sh: Shared, t: nat, l: Local, k: nat)
    requires LocalInv(sh, t, l) && l.pc.Choose? && k in Puts(l.full) && |sh.meta| == |sh.table|
    ensures k < |sh.table| && sh.meta[k].owner == t && sh.meta[k].src < l.entry
  {
    PutsOfFull(l.wset, l.full);
    var j :| 0 <= j < |l.wset| && l.wset[j].key == k;
    assert sh.meta[l.wset[j].key].owner == t;
  }

  lemma ChooseKeeps(sh: Shared, t: nat, l: Local)
    requires SharedInv(sh) && LocalInv(sh, t, l) && l.pc.Choose? && TickEnabled(sh, t, l)
    ensures Keeps(sh, t, TickChoose(sh, t, l))
  {
    ChooseShared(sh, t, l);
    ChooseLocal(sh, t, l);
  }

  lemma ChooseShared(sh: Shared, t: nat, l: Local)
    requires SharedInv(sh) && LocalInv(sh, t, l) && l.pc.Choose? && TickEnabled(sh, t, l)
    ensures SharedInv(TickChoose(sh, t, l).sh) && Guarantee(sh, TickChoose(sh, t, l).sh, t)
  {
    hide PastInv, MaxInv, PhaseInv, OverInv, SeenInv, EpochInv, NewerInv, HeldInv, BytesInv, FullInv, TailInv,
      LocalShape, OrdersInv, Ver, CommitWord;
    var sh' := TickChoose(sh, t, l).sh;
    assert LogMoves(sh.log, sh'.log);
    ChoosePrev(sh, t, l);
    ChooseOvers(sh, t, l);
    LogMovesKeeps(sh, sh'.log);
    LogMovesRely(sh, sh'.log, t);
    ChooseDone(sh, t, l);
    ChooseOrders(sh, t, l);
    assert LogInv(sh, l.entry);
    BasesMove(sh.init, sh.log, sh'.log, l.entry);
    forall j | 0 <= j < |sh.log| ensures LogInv(sh', j) {}
    forall j, k ensures LiveInv(sh.meta, sh'.log, j, k) {
      assert LiveInv(sh.meta, sh.log, j, k);
    }
  }

  lemma ChooseLocal(sh: Shared, t: nat, l: Local)
    requires SharedInv(sh) && LocalInv(sh, t, l) && l.pc.Choose? && TickEnabled(sh, t, l)
    ensures LocalInv(TickChoose(sh, t, l).sh, t, TickChoose(sh, t, l).l)
  {
    hide Less, Ver, CommitWord, LocksInv, ReadsInv, PastInv, MaxInv, EpochInv, NewerInv, SharedInv, MineInv;
    var p := TickChoose(sh, t, l);
    ChooseEntry(sh, t, l);
    ChooseMine(sh, t, l);
    LogMovesReads(sh, p.sh.log, l.rset, l.srcs);
    RelyReadsOk(sh.log, p.sh.log, l.entry, l.rset, l.srcs, 0);
  }

  lemma ChooseEntry(sh: Shared, t: nat, l: Local)
    requires SharedInv(sh) && LocalInv(sh, t, l) && l.pc.Choose? && TickEnabled(sh, t, l)
    ensures var p := TickChoose(sh, t, l);
            && LogMoves(sh.log, p.sh.log) && EntryInv(p.sh.log, t, p.l)
            && PastInv(p.sh.log, sh.meta, t, p.l.entry, p.l.mrctid)
            && MaxInv(sh.epoch, p.l) && EpochInv(p.sh.log, sh.local, t, p.l)
            && NewerInv(sh.table, p.l.pc, l.wset, p.l.mrctid)
  {
    hide LocksInv, ReadsInv, CopyInv, PhaseInv, OverInv, SeenInv, ReadsOk, SettledInv, BytesInv, FullInv,
      LocalShape, RecordInv, LiveInv, Over, Ver, CommitWord;
    ChosenWord(sh, t, l);
    assert LogInv(sh, l.entry);
  }

  // ----- installing -----

  lemma InstallByteKeeps(sh: Shared, t: nat, l: Local, i: nat, b: nat)
    requires SharedInv(sh) && LocalInv(sh, t, l) && t < |sh.local| && l.pc == Install(i, b) && AtWrite(sh, l, i)
    requires b < |l.wset[i].val| && b < |sh.table[l.wset[i].key].val|
    ensures Keeps(sh, t, TickInstallByte(sh, l, i, b))
  {
    InstallByteShared(sh, t, l, i, b);
    InstallByteLocal(sh, t, l, i, b);
  }

  lemma InstallByteShared(sh: Shared, t: nat, l: Local, i: nat, b: nat)
    requires SharedInv(sh) && LocalInv(sh, t, l) && t < |sh.local| && l.pc == Install(i, b) && AtWrite(sh, l, i)
    requires b < |l.wset[i].val| && b < |sh.table[l.wset[i].key].val|
    ensures var sh' := TickInstallByte(sh, l, i, b).sh; SharedInv(sh') && Guarantee(sh, sh', t)
  {
    hide PastInv, ReadsInv, CopyInv, MaxInv, OverInv, SeenInv, EpochInv, NewerInv, ReadsOk, HeldInv, BytesInv,
      EntryInv, UnlockInv, FullInv, TailInv, LocalShape, OrdersInv, Ver;
    var sh', k := TickInstallByte(sh, l, i, b).sh, l.wset[i].key;
    assert sh.meta[k].owner == t;
    forall j | 0 <= j < |sh.table| ensures RecordInv(sh', j) {
      assert RecordInv(sh, j);
    }
    forall j | 0 <= j < |sh.log| ensures LogInv(sh', j) {
      assert LogInv(sh, j);
    }
    forall j, m ensures LiveInv(sh'.meta, sh'.log, j, m) {
      assert LiveInv(sh.meta, sh.log, j, m);
    }
    forall u: nat | u != t ensures Rely(sh, sh', u) {
      forall j | 0 <= j < |sh.table|
        ensures RecordMoves(sh.table[j], sh.meta[j], sh'.table[j], sh'.meta[j], u) {}
    }
  }

  lemma InstallByteLocal(sh: Shared, t: nat, l: Local, i: nat, b: nat)
    requires SharedInv(sh) && LocalInv(sh, t, l) && t < |sh.local| && l.pc == Install(i, b) && AtWrite(sh, l, i)
    requires b < |l.wset[i].val| && b < |sh.table[l.wset[i].key].val|
    ensures var p := TickInstallByte(sh, l, i, b); LocalInv(p.sh, t, p.l)
  {
    hide BytesInv, FullInv, TailInv, RecordInv, LogInv, LiveInv, OrdersInv, Less, Ver;
    var p := TickInstallByte(sh, l, i, b);
    var k := l.wset[i].key;
    assert sh.meta[k].owner == t;
    forall j | 0 <= j < |l.rset| ensures ReadInv(p.sh, l.rset[j], l.srcs[j]) {
      assert ReadInv(sh, l.rset[j], l.srcs[j]);
    }
    assert LocksInv(p.sh.meta, t, l.wset, i, |l.wset|);
    assert PastInv(p.sh.log, p.sh.meta, t, l.entry, l.mrctid);
    InstallByteBytes(sh, t, l, i, b);
    assert EntryInv(p.sh.log, t, p.l) && EpochInv(p.sh.log, p.sh.local, t, p.l);
  }

  lemma InstallByteBytes(sh: Shared, t: nat, l: Local, i: nat, b: nat)
    requires SharedShape(sh) && LocalInv(sh, t, l) && l.pc == Install(i, b) && AtWrite(sh, l, i)
    requires b < |l.wset[i].val| && b < |sh.table[l.wset[i].key].val|
    ensures var p := TickInstallByte(sh, l, i, b);
            && BytesInv(p.sh.table, p.sh.meta, t, p.l.pc, l.wset)
            && TailInv(p.sh.table, l.entry, i, l.wset, l.full)
  {
    hide LocksInv, PastInv, ReadsInv, CopyInv, MaxInv, PhaseInv, SeenInv, EpochInv, NewerInv, ReadsOk, HeldInv,
      SettledInv, UnlockInv, Over, Puts;
    var p, k := TickInstallByte(sh, l, i, b), l.wset[i].key;
    var val, val', w := sh.table[k].val, p.sh.table[k].val, l.wset[i].val;
    assert val'[..b + 1] == val[..b] + [w[b]];
    assert w[..b + 1] == w[..b] + [w[b]];
    assert Extends(l.wset[i], l.full[i], sh.width);
    assert val'[|w|..] == val[|w|..];
    forall j | i < j < |l.wset| ensures l.wset[j].key != k {
      assert ApartWrites(l.wset, i, j);
    }
  }

  lemma InstallWordKeeps(sh: Shared, t: nat, l: Local, i: nat, b: nat)
    requires SharedInv(sh) && LocalInv(sh, t, l) && t < |sh.local| && l.pc == Install(i, b) && AtWrite(sh, l, i)
    requires b >= |l.wset[i].val|
    ensures Keeps(sh, t, TickInstallWord(sh, l, i))
  {
    InstallWordShared(sh, t, l, i, b);
    InstallWordLocal(sh, t, l, i, b);
  }

  lemma InstallWordShared(sh: Shared, t: nat, l: Local, i: nat, b: nat)
    requires SharedInv(sh) && LocalInv(sh, t, l) && t < |sh.local| && l.pc == Install(i, b) && AtWrite(sh, l, i)
    requires b >= |l.wset[i].val|
    ensures var sh' := TickInstallWord(sh, l, i).sh; SharedInv(sh') && Guarantee(sh, sh', t)
  {
    hide CopyInv, MaxInv, PhaseInv, OverInv, SeenInv, EpochInv, ReadsOk, SettledInv, BytesInv, UnlockInv, FullInv,
      TailInv, LocalShape, OrdersInv, SharedShape, Puts;
    var sh', k := TickInstallWord(sh, l, i).sh, l.wset[i].key;
    assert sh.meta[k].owner == t && sh.meta[k].src < l.entry;
    assert Ver(sh.table[k].word) < Ver(l.mrctid);
    InstallWordRecord(sh, t, l, i, b);
    forall j | 0 <= j < |sh.table| ensures RecordInv(sh', j) {
      assert RecordInv(sh, j);
    }
    forall j | 0 <= j < |sh.log| ensures LogInv(sh', j) {
      assert LogInv(sh, j);
    }
    forall j, m ensures LiveInv(sh'.meta, sh'.log, j, m) {
      assert LiveInv(sh.meta, sh.log, j, m);
    }
    forall u: nat | u != t ensures Rely(sh, sh', u) {
      forall j | 0 <= j < |sh.table|
        ensures RecordMoves(sh.table[j], sh.meta[j], sh'.table[j], sh'.meta[j], u) {}
    }
  }

  /** The bytes written, with those left as they were, are the value that the transaction wrote. */
  lemma InstalledValue(sh: Shared, t: nat, l: Local, i: nat, b: nat)
    requires LocalInv(sh, t, l) && l.pc == Install(i, b) && AtWrite(sh, l, i) && b >= |l.wset[i].val|
    requires |sh.table[l.wset[i].key].val| == sh.width
    ensures l.entry >= 0 && |l.full| == |l.wset| && Extends(l.wset[i], l.full[i], sh.width)
    ensures sh.table[l.wset[i].key].val == l.full[i].val
  {
    var val, w := sh.table[l.wset[i].key].val, l.wset[i].val;
    assert Extends(l.wset[i], l.full[i], sh.width);
    assert Over(val, w) == l.full[i].val;
    assert val == val[..|w|] + val[|w|..];
  }

  lemma InstalledPut(sh: Shared, t: nat, l: Local, i: nat)
    requires LocalInv(sh, t, l) && l.pc.Install? && l.pc.i == i && i < |l.wset| && l.entry >= 0
    requires |l.full| == |l.wset|
    ensures l.entry < |sh.log|
    ensures var e := sh.log[l.entry];
            && e.outcome.Done? && e.outcome.word == l.mrctid
            && l.wset[i].key in e.puts && e.puts[l.wset[i].key] == l.full[i].val
  {
    PutsOfFull(l.wset, l.full);
  }

  lemma DoneWord(sh: Shared, j: nat, k: nat)
    requires SharedInv(sh) && j < |sh.log| && sh.log[j].outcome.Done? && k in sh.log[j].puts && k < |sh.init|
    ensures var w := sh.log[j].outcome.word;
            !w.lock && w.epoch <= sh.epoch && Ver(sh.init[k].word) < Ver(w)
  {
    assert LogInv(sh, j);
  }

  lemma InstallWordRecord(sh: Shared, t: nat, l: Local, i: nat, b: nat)
    requires SharedInv(sh) && LocalInv(sh, t, l) && t < |sh.local| && l.pc == Install(i, b) && AtWrite(sh, l, i)
    requires b >= |l.wset[i].val|
    ensures SharedShape(TickInstallWord(sh, l, i).sh) && RecordInv(TickInstallWord(sh, l, i).sh, l.wset[i].key)
  {
    hide Less, Ver, LocalInv, RecordInv, LogInv, LiveInv, OrdersInv, Over, Extends;
    var k := l.wset[i].key;
    InstalledValue(sh, t, l, i, b);
    InstalledPut(sh, t, l, i);
    DoneWord(sh, l.entry, k);
    InstalledRecord(sh, l, i);
  }

  lemma InstalledRecord(sh: Shared, l: Local, i: nat)
    requires SharedShape(sh) && AtWrite(sh, l, i) && 0 <= l.entry < |sh.log| && |l.full| == |l.wset|
    requires var k, e := l.wset[i].key, sh.log[l.entry];
             && sh.table[k].val == l.full[i].val
             && e.outcome.Done? && e.outcome.word == l.mrctid && k in e.puts && e.puts[k] == l.full[i].val
             && !l.mrctid.lock && l.mrctid.epoch <= sh.epoch && Ver(sh.init[k].word) < Ver(l.mrctid)
    ensures var sh' := TickInstallWord(sh, l, i).sh; SharedShape(sh') && RecordInv(sh', l.wset[i].key)
  {
    hide Less, Ver;
  }

  /** The record about to be installed is held, older than the transaction, and not met again. */
  lemma InstallFacts(sh: Shared, t: nat, l: Local, i: nat)
    requires SharedInv(sh) && LocalInv(sh, t, l) && l.pc.Install? && l.pc.i == i && AtWrite(sh, l, i)
    ensures var k := l.wset[i].key;
            && sh.meta[k].owner == t && sh.meta[k].src < l.entry && Ver(sh.table[k].word) < Ver(l.mrctid)
            && (forall j :: i < j < |l.wset| ==> l.wset[j].key != k)
            && LocksInv(Relock(sh, k, -1).meta, t, l.wset, i + 1, |l.wset|)
            && ReadsInv(sh, l.rset, l.srcs)
  {
    hide Less, Ver;
    ReleasedLocks(sh, t, l.wset, i, |l.wset|);
    forall j | i < j < |l.wset| ensures l.wset[j].key != l.wset[i].key {
      assert ApartWrites(l.wset, i, j);
    }
  }

  lemma InstallWordLocal(sh: Shared, t: nat, l: Local, i: nat, b: nat)
    requires SharedInv(sh) && LocalInv(sh, t, l) && t < |sh.local| && l.pc == Install(i, b) && AtWrite(sh, l, i)
    requires b >= |l.wset[i].val|
    ensures var p := TickInstallWord(sh, l, i); LocalInv(p.sh, t, p.l)
  {
    hide Less, Ver, ReadsInv, LocksInv, PastInv, BytesInv, EntryInv, EpochInv, HeldInv, SettledInv, SharedInv,
      NewerInv, TailInv;
    InstallFacts(sh, t, l, i);
    InstallWordReads(sh, t, l, i);
    InstallWordOwn(sh, t, l, i);
  }

  lemma InstallWordReads(sh: Shared, t: nat, l: Local, i: nat)
    requires ReadsInv(sh, l.rset, l.srcs) && AtWrite(sh, l, i)
    requires Ver(sh.table[l.wset[i].key].word) < Ver(l.mrctid)
    ensures ReadsInv(TickInstallWord(sh, l, i).sh, l.rset, l.srcs)
  {
    hide Less, Ver;
    forall j | 0 <= j < |l.rset| ensures ReadInv(TickInstallWord(sh, l, i).sh, l.rset[j], l.srcs[j]) {
      assert ReadInv(sh, l.rset[j], l.srcs[j]);
    }
  }

  lemma InstallWordOwn(sh: Shared, t: nat, l: Local, i: nat)
    requires LocalInv(sh, t, l) && l.pc.Install? && l.pc.i == i && AtWrite(sh, l, i)
    requires sh.meta[l.wset[i].key].owner == t && sh.meta[l.wset[i].key].src < l.entry
    requires LocksInv(Relock(sh, l.wset[i].key, -1).meta, t, l.wset, i + 1, |l.wset|)
    requires forall j :: i < j < |l.wset| ==> l.wset[j].key != l.wset[i].key
    ensures var p := TickInstallWord(sh, l, i);
            && LocksInv(p.sh.meta, t, l.wset, i + 1, |l.wset|)
            && PastInv(p.sh.log, p.sh.meta, t, l.entry, l.mrctid)
            && NewerInv(p.sh.table, p.l.pc, l.wset, l.mrctid)
            && HeldInv(p.sh.meta, l.wset, i + 1, |l.wset|, l.entry)
            && SettledInv(p.sh.meta, p.l.pc, l.wset, l.entry)
            && BytesInv(p.sh.table, p.sh.meta, t, p.l.pc, l.wset)
            && EntryInv(p.sh.log, t, p.l) && EpochInv(p.sh.log, p.sh.local, t, p.l)
            && TailInv(p.sh.table, l.entry, i + 1, l.wset, l.full)
  {
    hide ReadsInv, MaxInv, PhaseInv, OverInv, SeenInv, ReadsOk, UnlockInv, FullInv, LocalShape, Ver, Puts;
    var p := TickInstallWord(sh, l, i);
    var meta1 := Relock(sh, l.wset[i].key, -1).meta;
    assert forall k :: 0 <= k < |sh.meta| ==> p.sh.meta[k].owner == meta1[k].owner;
  }

  lemma InstallDoneKeeps(sh: Shared, t: nat, l: Local, i: nat, b: nat)
    requires SharedInv(sh) && LocalInv(sh, t, l) && t < |sh.local| && l.pc == Install(i, b) && i >= |l.wset|
    ensures Keeps(sh, t, Pair(sh, TickInstallDone(l)))
  {
    hide Less, Ver, LocalInv;
    InstallDoneLocal(sh, t, l, i, b);
    OwnKeeps(sh, t, TickInstallDone(l));
  }

  lemma InstallDoneLocal(sh: Shared, t: nat, l: Local, i: nat, b: nat)
    requires SharedShape(sh) && LocalInv(sh, t, l) && t < |sh.local| && l.pc == Install(i, b) && i >= |l.wset|
    ensures LocalInv(sh, t, TickInstallDone(l))
  {
    hide Over, Ver, Max, CommitWord, Puts;
    NothingHeld(sh.meta, t, l.wset, |l.wset|);
    assert LocksInv(sh.meta, t, [], 0, 0) by {
      forall k | 0 <= k < |sh.meta| ensures sh.meta[k].owner != t {
        assert !Holds(l.wset, 0, 0, k);
      }
    }
    assert PastInv(sh.log, sh.meta, t, -1, l.mrctid) by {
      PutsOfFull(l.wset, l.full);
      assert forall j :: 0 <= j < |l.wset| ==> l.entry <= sh.meta[l.wset[j].key].src;
    }
  }

  lemma InstallKeeps(sh: Shared, t: nat, l: Local, i: nat, b: nat)
    requires SharedInv(sh) && LocalInv(sh, t, l) && l.pc == Install(i, b) && TickEnabled(sh, t, l)
    ensures Keeps(sh, t, TickInstall(sh, l, i, b))
  {
    if i >= |l.wset| {
      InstallDoneKeeps(sh, t, l, i, b);
    } else if b < |l.wset[i].val| {
      InstallByteKeeps(sh, t, l, i, b);
    } else {
      InstallWordKeeps(sh, t, l, i, b);
    }
  }
}
