/// Replaying the logs: the merged logs of all workers, in the order of the log sequence numbers, transfer by transfer.

module PipelineReplay {
  import opened Amounts
  import opened Pipeline
  import opened PipelineInvariant
  import opened PipelineCommit
  import opened PipelineTheorems
  import Serial

  type Hist = seq<Serial.Txn<int>>

  /** Adds to the balance of one account. */
  function Add(db: seq<int>, k: nat, d: int): (r: seq<int>)
    ensures |r| == |db|
  {
    if k < |db| then db[k := db[k] + d] else db
  }

  /** One transfer, as the code of `commitWork` applies it. */
  function Transfer(db: seq<int>, r: Request): (db': seq<int>)
    ensures |db'| == |db|
  {
    Add(Add(db, r.from, -r.diff), r.to, r.diff)
  }

  /** Transfers one after the other. */
  function Transfers(db: seq<int>, xs: seq<Xact>): (r: seq<int>)
    ensures |r| == |db|
  {
    if xs == [] then db else Transfer(Transfers(db, xs[..|xs| - 1]), xs[|xs| - 1].req)
  }

  lemma {:induction false} TransfersAppend(db: seq<int>, a: seq<Xact>, b: seq<Xact>)
    ensures Transfers(db, a + b) == Transfers(Transfers(db, a), b)
  {
    if b == [] {
      assert a + b == a;
    } else {
      var n := |b| - 1;
      assert (a + b)[..|a + b| - 1] == a + b[..n];
      TransfersAppend(db, a, b[..n]);
    }
  }

  /** The transfers of a group that have been written. */
  function Done(xs: seq<Xact>, h: Serial.Txn<int>): seq<Xact> {
    if xs == [] then []
    else
      var front, x := Done(xs[..|xs| - 1], h), xs[|xs| - 1];
      if x.req.from in h.put then front + [x] else front
  }

  /** The written transfers of the first `n` entries, in the order of their log sequence numbers. */
  function Merged(ledger: seq<Track>, h: Hist, n: nat): seq<Xact>
    requires n <= |ledger| && n <= |h|
  {
    if n == 0 then [] else Merged(ledger, h, n - 1) + Done(ledger[n - 1].xacts, h[n - 1])
  }

  /** What an entry has read agrees with `db`. */
  ghost predicate ReadFrom(db: seq<int>, h: Serial.Txn<int>) {
    forall k :: k in h.got ==> k < |db| && h.got[k] == db[k]
  }

  /** No transfer of the group is half written. */
  predicate Whole(x: Xact, h: Serial.Txn<int>) {
    x.req.from in h.put <==> x.req.to in h.put
  }

  /** The written transfers of a group add to a key what all of them do if the key is written, and else nothing. */
  lemma {:induction false} DoneEffects(xs: seq<Xact>, h: Serial.Txn<int>, k: nat)
    requires Disjoint(xs) && forall i :: 0 <= i < |xs| ==> Whole(xs[i], h)
    ensures Effects(Done(xs, h), k) == if k in Keys(xs) && k in h.put then Effects(xs, k) else 0
  {
    if xs != [] {
      var n := |xs| - 1;
      DoneEffects(xs[..n], h, k);
      NoEffect(xs[..n], k);
      assert Whole(xs[n], h);
      var front := Done(xs[..n], h);
      assert (front + [xs[n]])[..|front|] == front;
    }
  }

  /** Applying the written transfers of a group one by one gives each key the value that was written to it. */
  lemma DoneAt(db: seq<int>, xs: seq<Xact>, h: Serial.Txn<int>, k: nat)
    requires Disjoint(xs) && ReadFrom(db, h) && k < |db|
    requires forall i :: 0 <= i < |xs| ==> TransferOk(xs[i].req, h) && Whole(xs[i], h)
    ensures Transfers(db, Done(xs, h))[k] == if k in Keys(xs) && k in h.put then h.put[k] else db[k]
  {
    hide Disjoint, Keys, Whole, TransferOk, Transfers, Done, Effects;
    TransfersAdd(db, Done(xs, h), k);
    DoneEffects(xs, h, k);
    GroupEffect(xs, h, k);
  }

  lemma DoneInstalls(db: seq<int>, xs: seq<Xact>, h: Serial.Txn<int>)
    requires Disjoint(xs) && ReadFrom(db, h) && h.put.Keys <= Keys(xs)
    requires forall i :: 0 <= i < |xs| ==> TransferOk(xs[i].req, h) && Whole(xs[i], h)
    ensures Transfers(db, Done(xs, h)) == Serial.Install(db, h.put)
  {
    hide Disjoint, Keys, ReadFrom, Transfers, Done;
    forall k | 0 <= k < |db| ensures Transfers(db, Done(xs, h))[k] == Serial.Install(db, h.put)[k] {
      DoneAt(db, xs, h, k);
    }
  }

  /** Every entry is made of disjoint transfers whose recorded values agree with the serial order. */
  ghost predicate WellRecorded(init: seq<int>, ledger: seq<Track>, h: Hist) {
    && |ledger| == |h| && Serial.ReadsAgree(init, h)
    && forall l :: 0 <= l < |ledger| ==> WellTracked(ledger[l], h[l])
  }

  ghost predicate WellTracked(t: Track, h: Serial.Txn<int>) {
    && Disjoint(t.xacts) && h.put.Keys <= h.got.Keys <= Keys(t.xacts)
    && forall i :: 0 <= i < |t.xacts| ==> TransferOk(t.xacts[i].req, h)
  }

  lemma RecordedOf(s: State)
    requires Inv(s)
    ensures WellRecorded(s.sh.init, s.sh.ledger, s.sh.hist)
  {
    hide LaneInv, Keys, TransferOk, Disjoint, KeysInv;
    forall l | 0 <= l < |s.sh.ledger| ensures WellTracked(s.sh.ledger[l], s.sh.hist[l]) {
      InvTrack(s, l);
    }
  }

  lemma EntryReads(init: seq<int>, h: Hist, l: nat)
    requires Serial.ReadsAgree(init, h) && l < |h|
    ensures ReadFrom(Serial.ExecTo(init, h, l), h[l])
  {
  }

  ghost predicate AllWhole(t: Track, h: Serial.Txn<int>) {
    forall i :: 0 <= i < |t.xacts| ==> Whole(t.xacts[i], h)
  }

  lemma {:induction false} MergedIsSerial(init: seq<int>, ledger: seq<Track>, h: Hist, n: nat)
    requires WellRecorded(init, ledger, h) && n <= |h|
    requires forall l :: 0 <= l < n ==> AllWhole(ledger[l], h[l])
    ensures Transfers(init, Merged(ledger, h, n)) == Serial.ExecTo(init, h, n)
  {
    if n > 0 {
      hide Disjoint, Keys, ReadFrom, TransferOk, Whole, Done, Serial.Install, Serial.ReadsAgree;
      var db := Serial.ExecTo(init, h, n - 1);
      MergedIsSerial(init, ledger, h, n - 1);
      EntryReads(init, h, n - 1);
      assert WellTracked(ledger[n - 1], h[n - 1]) && AllWhole(ledger[n - 1], h[n - 1]);
      DoneInstalls(db, ledger[n - 1].xacts, h[n - 1]);
      TransfersAppend(init, Merged(ledger, h, n - 1), Done(ledger[n - 1].xacts, h[n - 1]));
    }
  }

  /** Whenever no transfer is between its two writes, the table is what the written transfers make of the initial
      table when they are executed one by one in the order of the merged logs. */
  lemma TableIsReplay(s0: State, s: State)
    requires Reachable(s0, s)
    requires forall l :: 0 <= l < |s.sh.ledger| && l < |s.sh.hist| ==> AllWhole(s.sh.ledger[l], s.sh.hist[l])
    ensures |s.sh.hist| == |s.sh.ledger|
    ensures s.sh.db == Transfers(s0.sh.db, Merged(s.sh.ledger, s.sh.hist, |s.sh.hist|))
  {
    hide Inv, Reachable, Disjoint, Keys, Whole, TransferOk;
    ReachableInv(s0, s);
    LsnOrderIsSerial(s0, s);
    RecordedOf(s);
    MergedIsSerial(s.sh.init, s.sh.ledger, s.sh.hist, |s.sh.hist|);
  }

  // ----- replaying the logs, whatever is running -----

  /** The transfers of the entries of `some` below `n`, in the order of their log sequence numbers. */
  function Picked(ledger: seq<Track>, some: set<nat>, n: nat): seq<Xact>
    requires n <= |ledger|
  {
    if n == 0 then []
    else Picked(ledger, some, n - 1) + (if n - 1 in some then ledger[n - 1].xacts else [])
  }

  /** The entries that are in a log. */
  function Logged(ledger: seq<Track>): set<nat> {
    set l: nat | l < |ledger| && !ledger[l].phase.Drawn?
  }

  /** The entries that a notifier has begun to apply are among them. */
  ghost predicate HasApplied(ledger: seq<Track>, some: set<nat>) {
    forall m: nat :: m < |ledger| && !Early(ledger[m].phase) ==> m in some
  }

  /** These are the entries of the workers' logs, and no others. */
  lemma LoggedIsLogs(s0: State, s: State, l: nat)
    requires Reachable(s0, s) && l < |s.sh.ledger|
    ensures l in Logged(s.sh.ledger) <==> InSomeLog(s, l)
    ensures forall w: nat, i: nat :: InLog(s, l, w, i) ==> s.lanes[w].log[i].xacts == s.sh.ledger[l].xacts
  {
    hide Reachable, Inv;
    ReachableInv(s0, s);
    forall w: nat, i: nat | InLog(s, l, w, i)
      ensures s.lanes[w].log[i].xacts == s.sh.ledger[l].xacts && !s.sh.ledger[l].phase.Drawn?
    {
      LoggedEntry(s, w, i);
    }
    if !s.sh.ledger[l].phase.Drawn? {
      InvPlace(s, l);
      assert InLog(s, l, s.sh.ledger[l].worker, s.sh.ledger[l].pos);
    }
  }

  /** What transfers add to one account. */
  function Effects(xs: seq<Xact>, k: nat): int {
    if xs == [] then 0 else Effects(xs[..|xs| - 1], k) + Effect(xs[|xs| - 1].req, k)
  }

  lemma {:induction false} TransfersAdd(db: seq<int>, xs: seq<Xact>, k: nat)
    requires k < |db|
    ensures Transfers(db, xs)[k] == db[k] + Effects(xs, k)
  {
    if xs != [] {
      TransfersAdd(db, xs[..|xs| - 1], k);
    }
  }

  lemma {:induction false} EffectsAppend(a: seq<Xact>, b: seq<Xact>, k: nat)
    ensures Effects(a + b, k) == Effects(a, k) + Effects(b, k)
  {
    if b == [] {
      assert a + b == a;
    } else {
      var n := |b| - 1;
      assert (a + b)[..|a + b| - 1] == a + b[..n];
      EffectsAppend(a, b[..n], k);
    }
  }

  /** What a group writes to a key is what it read there and what its transfers add. */
  lemma {:induction false} GroupEffect(xs: seq<Xact>, h: Serial.Txn<int>, k: nat)
    requires Disjoint(xs) && forall i :: 0 <= i < |xs| ==> TransferOk(xs[i].req, h)
    ensures k !in Keys(xs) ==> Effects(xs, k) == 0
    ensures k in Keys(xs) && k in h.put ==> k in h.got && h.put[k] == h.got[k] + Effects(xs, k)
  {
    if xs != [] {
      GroupEffect(xs[..|xs| - 1], h, k);
      assert TransferOk(xs[|xs| - 1].req, h);
    }
  }

  /** Every entry below `n` that has the key is one of `some` and has written the key. */
  ghost predicate Covered(ledger: seq<Track>, h: Hist, some: set<nat>, n: nat, k: nat) {
    forall m :: 0 <= m < n && m < |ledger| && m < |h| && k in Keys(ledger[m].xacts) ==> m in some && k in h[m].put
  }

  lemma EntryEffect(db: seq<int>, t: Track, h: Serial.Txn<int>, k: nat)
    requires WellTracked(t, h) && ReadFrom(db, h) && k < |db| && (k in Keys(t.xacts) ==> k in h.put)
    ensures Serial.Install(db, h.put)[k] == db[k] + Effects(t.xacts, k)
  {
    hide Disjoint, Keys, TransferOk, Effects;
    GroupEffect(t.xacts, h, k);
  }

  lemma CoveredStep(init: seq<int>, ledger: seq<Track>, h: Hist, some: set<nat>, n: nat, k: nat)
    requires WellRecorded(init, ledger, h) && 0 < n <= |h| && k < |init|
    requires k in Keys(ledger[n - 1].xacts) ==> n - 1 in some && k in h[n - 1].put
    ensures Serial.ExecTo(init, h, n)[k] == Serial.ExecTo(init, h, n - 1)[k]
              + (if n - 1 in some then Effects(ledger[n - 1].xacts, k) else 0)
  {
    hide Keys, Serial.ReadsAgree, ReadFrom, Effects;
    var db, t := Serial.ExecTo(init, h, n - 1), ledger[n - 1];
    assert WellTracked(t, h[n - 1]);
    hide WellTracked;
    EntryReads(init, h, n - 1);
    EntryEffect(db, t, h[n - 1], k);
    NoEffect(t.xacts, k);
    assert Serial.ExecTo(init, h, n) == Serial.Install(db, h[n - 1].put);
  }

  lemma {:induction false} CoveredIsReplay(init: seq<int>, ledger: seq<Track>, h: Hist, some: set<nat>, n: nat, k: nat)
    requires WellRecorded(init, ledger, h) && n <= |h| == |ledger| && k < |init| && Covered(ledger, h, some, n, k)
    ensures Serial.ExecTo(init, h, n)[k] == init[k] + Effects(Picked(ledger, some, n), k)
  {
    hide WellRecorded, Keys;
    if n > 0 {
      hide Picked, Effects, Serial.ExecTo;
      CoveredIsReplay(init, ledger, h, some, n - 1, k);
      CoveredStep(init, ledger, h, some, n, k);
      PickedEffects(ledger, some, n, k);
    }
  }

  lemma {:induction false} NoEffect(xs: seq<Xact>, k: nat)
    ensures k !in Keys(xs) ==> Effects(xs, k) == 0
  {
    if xs != [] {
      NoEffect(xs[..|xs| - 1], k);
    }
  }

  lemma PickedEffects(ledger: seq<Track>, some: set<nat>, n: nat, k: nat)
    requires 0 < n <= |ledger|
    ensures Effects(Picked(ledger, some, n), k) == Effects(Picked(ledger, some, n - 1), k)
              + (if n - 1 in some then Effects(ledger[n - 1].xacts, k) else 0)
  {
    var more := if n - 1 in some then ledger[n - 1].xacts else [];
    EffectsAppend(Picked(ledger, some, n - 1), more, k);
  }

  /** Each of the two balances that a commit read is what a replay, stopped just before its transfer, has put there:
      a replay, in the order of the log sequence numbers, of any entries among which are all that have begun to be
      applied. Nothing is asked of the other entries: any number of them may be half done, and missing or not. */
  lemma ReadsReplay(s0: State, s: State, some: set<nat>, l: nat, i: nat, k: nat)
    requires Reachable(s0, s) && l < |s.sh.ledger| && i < |s.sh.ledger[l].xacts| && l < |s.sh.hist|
    requires k == s.sh.ledger[l].xacts[i].req.from || k == s.sh.ledger[l].xacts[i].req.to
    requires k in s.sh.hist[l].got && HasApplied(s.sh.ledger, some)
    ensures l in some
    ensures var before := Picked(s.sh.ledger, some, l) + s.sh.ledger[l].xacts[..i];
            k < |s0.sh.db| && s.sh.hist[l].got[k] == Transfers(s0.sh.db, before)[k]
  {
    hide Inv, Reachable, Disjoint, Keys, TransferOk, Serial.ReadsAgree, ReadFrom, Effects, Picked;
    var t, h := s.sh.ledger[l], s.sh.hist;
    ReachableInv(s0, s);
    RecordedOf(s);
    ReadersApplied(s, l);
    EntryReads(s.sh.init, h, l);
    ReadAt(Serial.ExecTo(s.sh.init, h, l), h[l], k);
    KeyAt(t.xacts, i);
    forall m | 0 <= m < l && k in Keys(s.sh.ledger[m].xacts) ensures m in some && k in h[m].put {
      ConflictsFollowLsns(s0, s, m, l, k);
    }
    CoveredIsReplay(s.sh.init, s.sh.ledger, h, some, l, k);
    assert WellTracked(t, h[l]);
    DisjointAt(t.xacts, i);
    GroupEffect(t.xacts[..i], h[l], k);
    EffectsAppend(Picked(s.sh.ledger, some, l), t.xacts[..i], k);
    TransfersAdd(s.sh.init, Picked(s.sh.ledger, some, l) + t.xacts[..i], k);
  }

  lemma ReadersApplied(s: State, l: nat)
    requires Inv(s) && l < |s.sh.ledger| && l < |s.sh.hist|
    ensures s.sh.hist[l].got != map[] ==> !Early(s.sh.ledger[l].phase)
  {
    InvTrack(s, l);
  }

  /** In particular, a replay of the merged logs of all workers. */
  lemma ReadsAreReplay(s0: State, s: State, l: nat, i: nat, k: nat)
    requires Reachable(s0, s) && l < |s.sh.ledger| && i < |s.sh.ledger[l].xacts| && l < |s.sh.hist|
    requires k == s.sh.ledger[l].xacts[i].req.from || k == s.sh.ledger[l].xacts[i].req.to
    requires k in s.sh.hist[l].got
    ensures var before := Picked(s.sh.ledger, Logged(s.sh.ledger), l) + s.sh.ledger[l].xacts[..i];
            k < |s0.sh.db| && s.sh.hist[l].got[k] == Transfers(s0.sh.db, before)[k]
  {
    hide Reachable, Transfers, Picked;
    ReadsReplay(s0, s, Logged(s.sh.ledger), l, i, k);
  }

  /** At every moment, a key that is not locked holds what a replay of any entries puts there among which are all that
      have begun to be applied. */
  lemma UnlockedReplay(s0: State, s: State, some: set<nat>, k: nat)
    requires Reachable(s0, s) && k < |s0.sh.db| && HasApplied(s.sh.ledger, some)
    ensures |s.sh.locks| == |s.sh.db| == |s0.sh.db|
    ensures !s.sh.locks[k] ==> s.sh.db[k] == Transfers(s0.sh.db, Picked(s.sh.ledger, some, |s.sh.ledger|))[k]
  {
    hide Inv, Reachable, Disjoint, Keys, TransferOk, Serial.ReadsAgree, Effects, Picked, Transfers;
    ReachableInv(s0, s);
    if !s.sh.locks[k] {
      LsnOrderIsSerial(s0, s);
      RecordedOf(s);
      forall m | 0 <= m < |s.sh.ledger| && k in Keys(s.sh.ledger[m].xacts) ensures m in some && k in s.sh.hist[m].put {
        UnlockedReleased(s, m, k);
      }
      CoveredIsReplay(s.sh.init, s.sh.ledger, s.sh.hist, some, |s.sh.hist|, k);
      TransfersAdd(s.sh.init, Picked(s.sh.ledger, some, |s.sh.ledger|), k);
    }
  }

  /** In particular, a replay of all logs. */
  lemma UnlockedIsReplay(s0: State, s: State, k: nat)
    requires Reachable(s0, s) && k < |s0.sh.db|
    ensures |s.sh.locks| == |s.sh.db| == |s0.sh.db|
    ensures var all := Picked(s.sh.ledger, Logged(s.sh.ledger), |s.sh.ledger|);
            !s.sh.locks[k] ==> s.sh.db[k] == Transfers(s0.sh.db, all)[k]
  {
    hide Reachable, Transfers, Picked;
    UnlockedReplay(s0, s, Logged(s.sh.ledger), k);
  }

  lemma UnlockedReleased(s: State, m: nat, k: nat)
    requires Inv(s) && m < |s.sh.ledger| && k in Keys(s.sh.ledger[m].xacts) && k < |s.sh.locks| && !s.sh.locks[k]
    ensures m < |s.sh.hist| && k in s.sh.hist[m].put && !Early(s.sh.ledger[m].phase)
  {
    InvTrack(s, m);
    hide SharedInv, LaneInv, GroupInv, TransferOk, Keys;
    KeysInRange(s, m, k);
    InvKey(s, k);
  }

  lemma ReadAt(db: seq<int>, h: Serial.Txn<int>, k: nat)
    requires ReadFrom(db, h) && k in h.got
    ensures k < |db| && h.got[k] == db[k]
  {
  }

  // ----- money -----

  function Sum(db: seq<int>): int {
    if db == [] then 0 else Sum(db[..|db| - 1]) + db[|db| - 1]
  }

  lemma {:induction false} SumUpdate(db: seq<int>, k: nat, v: int)
    requires k < |db|
    ensures Sum(db[k := v]) == Sum(db) - db[k] + v
  {
    var n := |db| - 1;
    if k < n {
      SumUpdate(db[..n], k, v);
      assert db[k := v][..n] == db[..n][k := v];
    } else {
      assert db[k := v][..n] == db[..n];
    }
  }

  /** What a transfer has taken from one account and not yet given to the other. */
  function Owed(r: Request, h: Serial.Txn<int>): int {
    (if r.from in h.put then r.diff else 0) - (if r.to in h.put then r.diff else 0)
  }

  function OwedBy(xs: seq<Xact>, h: Serial.Txn<int>): int {
    if xs == [] then 0 else OwedBy(xs[..|xs| - 1], h) + Owed(xs[|xs| - 1].req, h)
  }

  function OwedTo(ledger: seq<Track>, h: Hist, n: nat): int
    requires n <= |ledger| && n <= |h|
  {
    if n == 0 then 0 else OwedTo(ledger, h, n - 1) + OwedBy(ledger[n - 1].xacts, h[n - 1])
  }

  /** The table with the writes to the keys of some transfers only. */
  function Only(db: seq<int>, keys: set<nat>, put: map<nat, int>): (r: seq<int>)
    ensures |r| == |db|
  {
    seq(|db|, k requires 0 <= k < |db| => if k in keys && k in put then put[k] else db[k])
  }

  /** The writes of a group change the sum by what its transfers still owe. */
  lemma {:induction false} SumOfGroup(db: seq<int>, xs: seq<Xact>, h: Serial.Txn<int>)
    requires Disjoint(xs) && ReadFrom(db, h) && h.put.Keys <= h.got.Keys
    requires forall i :: 0 <= i < |xs| ==> TransferOk(xs[i].req, h)
    ensures Sum(Only(db, Keys(xs), h.put)) + OwedBy(xs, h) == Sum(db)
  {
    if xs == [] {
      assert Only(db, Keys(xs), h.put) == db;
    } else {
      var n := |xs| - 1;
      var r := xs[n].req;
      SumOfGroup(db, xs[..n], h);
      assert TransferOk(r, h);
      SumOfOne(db, Keys(xs[..n]), r, h);
    }
  }

  lemma SumOfOne(db: seq<int>, keys: set<nat>, r: Request, h: Serial.Txn<int>)
    requires ReadFrom(db, h) && TransferOk(r, h) && h.put.Keys <= h.got.Keys
    requires r.from != r.to && r.from !in keys && r.to !in keys
    ensures Sum(Only(db, keys + {r.from, r.to}, h.put)) + Owed(r, h) == Sum(Only(db, keys, h.put))
  {
    var a := Only(db, keys, h.put);
    var b := if r.from in h.put then a[r.from := h.put[r.from]] else a;
    var c := if r.to in h.put then b[r.to := h.put[r.to]] else b;
    if r.from in h.put {
      SumUpdate(a, r.from, h.put[r.from]);
    }
    if r.to in h.put {
      SumUpdate(b, r.to, h.put[r.to]);
    }
    assert c == Only(db, keys + {r.from, r.to}, h.put);
  }

  lemma {:induction false} SumOfSerial(init: seq<int>, ledger: seq<Track>, h: Hist, n: nat)
    requires WellRecorded(init, ledger, h) && n <= |h|
    ensures Sum(Serial.ExecTo(init, h, n)) + OwedTo(ledger, h, n) == Sum(init)
  {
    if n > 0 {
      hide Disjoint, Keys, ReadFrom, TransferOk, Serial.ReadsAgree, Sum, OwedBy;
      var db, e := Serial.ExecTo(init, h, n - 1), h[n - 1];
      SumOfSerial(init, ledger, h, n - 1);
      EntryReads(init, h, n - 1);
      assert WellTracked(ledger[n - 1], e);
      SumOfGroup(db, ledger[n - 1].xacts, e);
      assert Serial.Install(db, e.put) == Only(db, Keys(ledger[n - 1].xacts), e.put);
    }
  }

  /** Money is conserved at every step: the sum of the table and of what half-written transfers still owe to their
      second account is the initial sum. */
  lemma MoneyConserved(s0: State, s: State)
    requires Reachable(s0, s)
    ensures |s.sh.hist| == |s.sh.ledger|
    ensures Sum(s.sh.db) + OwedTo(s.sh.ledger, s.sh.hist, |s.sh.ledger|) == Sum(s0.sh.db)
  {
    hide Inv, Reachable, Disjoint, Keys, TransferOk, Sum, OwedTo;
    ReachableInv(s0, s);
    LsnOrderIsSerial(s0, s);
    RecordedOf(s);
    SumOfSerial(s.sh.init, s.sh.ledger, s.sh.hist, |s.sh.hist|);
  }

  /** A half-written transfer is in the hands of a notifier that is just about to write the other half. */
  lemma HalfWritten(s0: State, s: State, l: nat, i: nat)
    requires Reachable(s0, s) && l < |s.sh.ledger| && i < |s.sh.ledger[l].xacts|
    requires l < |s.sh.hist| && !Whole(s.sh.ledger[l].xacts[i], s.sh.hist[l])
    ensures var t := s.sh.ledger[l];
            && t.phase.Loaded? && Applying(s, l, t.worker, t.phase.f)
            && var npc := s.lanes[t.worker].links[t.phase.f].npc; npc.i == i && npc.stage.WriteTo?
  {
    hide Reachable, Inv, Keys, Disjoint, TransferOk;
    var t, h := s.sh.ledger[l], s.sh.hist[l];
    ReachableInv(s0, s);
    InvTrack(s, l);
    InvPlace(s, l);
    KeyAt(t.xacts, i);
    assert t.phase.Loaded?;
    ProgressOf(s, l);
    var j := s.lanes[t.worker].links[t.phase.f].npc.i;
    if i < j {
      KeyAt(t.xacts[..j], i);
    } else {
      DisjointAt(t.xacts, j);
      if i > j {
        KeysNext(t.xacts, j);
        DisjointAt(t.xacts, i);
        KeysGrow(t.xacts, j + 1, i);
      }
    }
  }

  lemma ProgressOf(s: State, l: nat)
    requires Inv(s) && l < |s.sh.ledger| && l < |s.sh.hist| && s.sh.ledger[l].phase.Loaded?
    ensures var t := s.sh.ledger[l];
            && Applying(s, l, t.worker, t.phase.f)
            && var npc := s.lanes[t.worker].links[t.phase.f].npc;
               npc.i < |t.xacts| && Progress(t, s.sh.hist[l], t.xacts, npc.i, npc.stage)
  {
    InvPlace(s, l);
    hide SharedInv, LaneInv, Progress;
    InvLink(s, s.sh.ledger[l].worker, s.sh.ledger[l].phase.f);
  }

  lemma {:induction false} KeysGrow(xs: seq<Xact>, m: nat, n: nat)
    requires m <= n <= |xs|
    ensures Keys(xs[..m]) <= Keys(xs[..n])
  {
    if m < n {
      KeysGrow(xs, m, n - 1);
      KeysNext(xs, n - 1);
    }
  }
}
