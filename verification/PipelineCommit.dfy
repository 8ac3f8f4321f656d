/// The steps of `commitWork` keep the invariant: each read finds what serial execution in the order of the log
/// sequence numbers puts there, although entries commit in any order.

module PipelineCommit {
  import opened Pipeline
  import opened PipelineInvariant
  import opened PipelineWorker
  import opened PipelineLogging
  import opened PipelineNotifier
  import Serial

  // ----- keys of a group -----

  lemma {:induction false} KeyAt(xs: seq<Xact>, i: nat)
    requires i < |xs|
    ensures xs[i].req.from in Keys(xs) && xs[i].req.to in Keys(xs)
  {
    if i < |xs| - 1 {
      KeyAt(xs[..|xs| - 1], i);
    }
  }

  lemma {:induction false} DisjointAt(xs: seq<Xact>, i: nat)
    requires Disjoint(xs) && i < |xs|
    ensures var r := xs[i].req;
            r.from != r.to && r.from !in Keys(xs[..i]) && r.to !in Keys(xs[..i]) && Disjoint(xs[..i])
  {
    if i < |xs| - 1 {
      DisjointAt(xs[..|xs| - 1], i);
      assert xs[..|xs| - 1][..i] == xs[..i];
    }
  }

  lemma KeysNext(xs: seq<Xact>, i: nat)
    requires i < |xs|
    ensures Keys(xs[..i + 1]) == Keys(xs[..i]) + {xs[i].req.from, xs[i].req.to}
  {
    assert xs[..i + 1][..i] == xs[..i];
  }

  /** Two transfers of a group have no key in common. */
  lemma Apart(xs: seq<Xact>, i: nat, j: nat)
    requires Disjoint(xs) && i < |xs| && j < |xs| && i != j
    ensures {xs[i].req.from, xs[i].req.to} !! {xs[j].req.from, xs[j].req.to}
  {
    var a, b := if i < j then i else j, if i < j then j else i;
    DisjointAt(xs, b);
    KeyAt(xs[..b], a);
  }

  // ----- the serial order -----

  /** A read of a key that the entry holds and has not written. */
  lemma GotSerial(sh: Shared, l: nat, k: nat)
    requires SerialInv(sh) && l < |sh.hist| && k < |sh.db| == |sh.init|
    requires forall j :: l <= j < |sh.hist| ==> k !in sh.hist[j].put
    ensures SerialInv(Got(sh, l, k, sh.db[k]))
  {
    var h, h' := sh.hist, Got(sh, l, k, sh.db[k]).hist;
    forall n: nat, k' | n <= |h| && 0 <= k' < |sh.init|
      ensures Serial.ExecTo(sh.init, h', n)[k'] == Serial.ExecTo(sh.init, h, n)[k']
    {
      assert forall j :: 0 <= j < n ==> Serial.SameOn(h[j], h'[j], k');
      Serial.ExecOnKey(sh.init, h, h', n, k');
    }
    Serial.NoWriters(sh.init, h, l, |h|, k);
    assert Serial.ReadsAgree(sh.init, h') by {
      forall i, k' | 0 <= i < |h'| && k' in h'[i].got
        ensures k' < |sh.init| && h'[i].got[k'] == Serial.ExecTo(sh.init, h', i)[k']
      {
        if i != l || k' != k {
          assert k' in h[i].got;
        }
      }
    }
  }

  /** A write to a key that no later entry has touched. */
  lemma PutSerial(sh: Shared, l: nat, k: nat, v: int)
    requires SerialInv(sh) && l < |sh.hist| && k < |sh.db| == |sh.init|
    requires forall j :: l < j < |sh.hist| ==> k !in sh.hist[j].put && k !in sh.hist[j].got
    ensures SerialInv(Put(sh, l, k, v))
  {
    var h, h' := sh.hist, Put(sh, l, k, v).hist;
    forall n: nat, k' | n <= |h| && 0 <= k' < |sh.init| && (k' != k || n <= l)
      ensures Serial.ExecTo(sh.init, h', n)[k'] == Serial.ExecTo(sh.init, h, n)[k']
    {
      assert forall j :: 0 <= j < n ==> Serial.SameOn(h[j], h'[j], k');
      Serial.ExecOnKey(sh.init, h, h', n, k');
    }
    Serial.NoWriters(sh.init, h', l + 1, |h'|, k);
    assert Serial.ExecTo(sh.init, h', l + 1)[k] == v;
    forall i, k' | 0 <= i < |h'| && k' in h'[i].got
      ensures k' < |sh.init| && h'[i].got[k'] == Serial.ExecTo(sh.init, h', i)[k']
    {
      assert k' in h[i].got;
    }
  }

  // ----- one access of `commitWork` -----

  /** Key `k` is held by entry `l` of lane `w`. */
  ghost predicate Held(sh: Shared, w: nat, l: nat, k: nat) {
    && l < |sh.ledger| == |sh.hist| && k < |sh.owner| == |sh.db| && |sh.locks| == |sh.db|
    && sh.owner[k] == Entered(l) && sh.ledger[l].worker == w && !Early(sh.ledger[l].phase)
  }

  /** No later entry has the key, and the entry has not released it. */
  lemma HeldOf(sh: Shared, lanes: nat, w: nat, l: nat, k: nat)
    requires SharedInv(sh, lanes) && Held(sh, w, l, k)
    ensures k in Keys(sh.ledger[l].xacts) && k !in sh.ledger[l].released
    ensures forall j :: l < j < |sh.hist| ==> k !in sh.hist[j].put && k !in sh.hist[j].got
  {
    hide Keys, GroupInv, SerialInv;
    assert KeyInv(sh.locks[k], sh.owner[k], sh.ledger, k);
    forall j | l < j < |sh.hist| ensures k !in sh.hist[j].put && k !in sh.hist[j].got {
      assert TrackInv(|sh.db|, sh.cap, sh.followers, lanes, sh.ledger[j], sh.hist[j], Count(sh.votes, j));
    }
  }

  /** Only the table and what is recorded about entry `l` have changed. */
  lemma HistKeeps(sh: Shared, sh': Shared, lanes: nat, w: nat, l: nat)
    requires SharedInv(sh, lanes) && l < |sh.ledger| && sh.ledger[l].worker == w
    requires |sh'.db| == |sh.db| && l < |sh.hist| == |sh'.hist|
    requires sh' == sh.(db := sh'.db, hist := sh.hist[l := sh'.hist[l]])
    requires TrackInv(|sh.db|, sh.cap, sh.followers, lanes, sh.ledger[l], sh'.hist[l], Count(sh.votes, l))
    requires SerialInv(sh')
    ensures SharedInv(sh', lanes) && forall v: nat :: v != w ==> Rely(sh, sh', v)
  {
    hide TrackInv, KeyInv, SerialInv;
  }

  lemma GotKeeps(sh: Shared, lanes: nat, w: nat, l: nat, k: nat)
    requires SharedInv(sh, lanes) && Held(sh, w, l, k) && k !in sh.hist[l].put
    ensures SharedInv(Got(sh, l, k, sh.db[k]), lanes)
    ensures forall v: nat :: v != w ==> Rely(sh, Got(sh, l, k, sh.db[k]), v)
  {
    hide Keys, GroupInv, KeysInv, TracksInv, Half, SerialInv, Rely;
    HeldOf(sh, lanes, w, l, k);
    TrackOf(sh, lanes, l);
    SharedShapeOf(sh, lanes);
    GotSerial(sh, l, k);
    HistKeeps(sh, Got(sh, l, k, sh.db[k]), lanes, w, l);
  }

  lemma PutKeeps(sh: Shared, lanes: nat, w: nat, l: nat, k: nat, v: int)
    requires SharedInv(sh, lanes) && Held(sh, w, l, k) && k in sh.hist[l].got
    requires forall i :: 0 <= i < |sh.ledger[l].xacts| ==>
               TransferOk(sh.ledger[l].xacts[i].req, Put(sh, l, k, v).hist[l])
    ensures SharedInv(Put(sh, l, k, v), lanes)
    ensures forall u: nat :: u != w ==> Rely(sh, Put(sh, l, k, v), u)
  {
    hide Keys, GroupInv, KeysInv, TracksInv, Half, SerialInv, Rely, TransferOk;
    HeldOf(sh, lanes, w, l, k);
    TrackOf(sh, lanes, l);
    SharedShapeOf(sh, lanes);
    PutSerial(sh, l, k, v);
    HistKeeps(sh, Put(sh, l, k, v), lanes, w, l);
  }

  lemma ReleaseKeys(sh: Shared, l: nat, k: nat)
    requires SharedShape(sh) && KeysInv(sh) && l < |sh.ledger| && k < |sh.db| && sh.owner[k] == Entered(l)
    ensures SharedShape(Release(sh, l, k)) && KeysInv(Release(sh, l, k))
  {
    hide Keys;
    var sh' := Release(sh, l, k);
    forall k' | 0 <= k' < |sh'.db| ensures KeyInv(sh'.locks[k'], sh'.owner[k'], sh'.ledger, k') {
      assert KeyInv(sh.locks[k'], sh.owner[k'], sh.ledger, k');
    }
  }

  lemma ReleaseTracks(sh: Shared, lanes: nat, l: nat, k: nat)
    requires SharedShape(sh) && TracksInv(sh, lanes) && l < |sh.ledger| && k < |sh.db|
    requires k in sh.hist[l].put && !sh.ledger[l].phase.Finished?
    ensures SharedShape(Release(sh, l, k)) && TracksInv(Release(sh, l, k), lanes)
  {
    hide Keys, GroupInv, TransferOk, Half;
    var sh' := Release(sh, l, k);
    forall j | 0 <= j < |sh'.ledger|
      ensures TrackInv(|sh'.db|, sh'.cap, sh'.followers, lanes, sh'.ledger[j], sh'.hist[j], Count(sh'.votes, j))
    {
      assert TrackInv(|sh.db|, sh.cap, sh.followers, lanes, sh.ledger[j], sh.hist[j], Count(sh.votes, j));
    }
  }

  lemma ReleaseRely(sh: Shared, w: nat, l: nat, k: nat, v: nat)
    requires SharedShape(sh) && Held(sh, w, l, k) && v != w
    ensures Rely(sh, Release(sh, l, k), v)
  {
  }

  lemma ReleaseKeeps(sh: Shared, lanes: nat, w: nat, l: nat, k: nat)
    requires SharedInv(sh, lanes) && Held(sh, w, l, k) && k in sh.hist[l].put && !sh.ledger[l].phase.Finished?
    ensures SharedInv(Release(sh, l, k), lanes)
    ensures forall u: nat :: u != w ==> Rely(sh, Release(sh, l, k), u)
  {
    hide KeysInv, TracksInv, SerialInv, Rely;
    ReleaseKeys(sh, l, k);
    ReleaseTracks(sh, lanes, l, k);
    SameSerial(sh, Release(sh, l, k));
    forall v: nat | v != w ensures Rely(sh, Release(sh, l, k), v) {
      ReleaseRely(sh, w, l, k, v);
    }
  }

  // ----- the lane -----

  predicate SameFate(t: Track, t': Track) {
    && t'.worker == t.worker && t'.xacts == t.xacts && t'.pos == t.pos && t'.voters == t.voters
    && t.phase.Loaded? && (t'.phase == t.phase || t'.phase == Finished)
  }

  lemma ApplyPlaces(ledger: seq<Track>, w: nat, pc: WorkerPc, log: seq<Entry>, tasks: seq<Entry>, links: seq<Link>,
                    f: nat, l: nat, t: Track, npc: NotifierPc)
    requires PlacesInv(ledger, w, pc, log, tasks, links) && LogInv(ledger, w, pc, log) && TasksInv(ledger, w, tasks)
    requires f < |links| && l < |ledger| && SameFate(ledger[l], t) && ledger[l].phase == Loaded(f) && t.worker == w
    requires t.phase.Finished? || Applies(npc, Entry(l, t.xacts))
    ensures PlacesInv(ledger[l := t], w, pc, log, tasks, links[f := links[f].(npc := npc)])
    ensures LogInv(ledger[l := t], w, pc, log) && TasksInv(ledger[l := t], w, tasks)
  {
    var ledger', links' := ledger[l := t], links[f := links[f].(npc := npc)];
    assert PlaceInv(ledger[l], l, pc, log, tasks, links);
    forall j | 0 <= j < |ledger'| && ledger'[j].worker == w ensures PlaceInv(ledger'[j], j, pc, log, tasks, links') {
      assert PlaceInv(ledger[j], j, pc, log, tasks, links);
    }
  }

  lemma ApplyLink(ledger: seq<Track>, hist: seq<Serial.Txn<int>>, followers: nat, w: nat, g: nat,
                  l: nat, t: Track, h: Serial.Txn<int>, npc: NotifierPc)
    requires NotifierInv(ledger, hist, followers, w, g, npc) && l < |ledger| && l < |hist| && SameFate(ledger[l], t)
    requires ledger[l].phase != Loaded(g)
    ensures NotifierInv(ledger[l := t], hist[l := h], followers, w, g, npc)
  {
    hide Keys, Progress;
  }

  lemma ApplyEntries(ledger: seq<Track>, hist: seq<Serial.Txn<int>>, followers: nat, w: nat, pc: WorkerPc,
                     log: seq<Entry>, tasks: seq<Entry>, links: seq<Link>, f: nat, l: nat, t: Track,
                         h: Serial.Txn<int>, npc: NotifierPc)
    requires EntriesInv(ledger, hist, followers, w, pc, log, tasks, links)
    requires f < |links| && l < |ledger| && l < |hist| && t.worker == w
    requires SameFate(ledger[l], t) && ledger[l].phase == Loaded(f)
    requires t.phase.Finished? || Applies(npc, Entry(l, t.xacts))
    requires NotifierInv(ledger[l := t], hist[l := h], followers, w, f, npc)
    ensures EntriesInv(ledger[l := t], hist[l := h], followers, w, pc, log, tasks, links[f := links[f].(npc := npc)])
  {
    hide Keys, Progress, ChanInv, AckInv, VotesInv, NotifierInv, PlacesInv, LogInv, TasksInv;
    ApplyPlaces(ledger, w, pc, log, tasks, links, f, l, t, npc);
    var links' := links[f := links[f].(npc := npc)];
    forall g | 0 <= g < |links'|
      ensures LinkInv(ledger[l := t], hist[l := h], followers, w, g, log, Sent(pc, log, g), links'[g])
    {
      assert LinkInv(ledger, hist, followers, w, g, log, Sent(pc, log, g), links[g]);
      SameVotes(ledger, w, g, links[g].counted, l, t);
      if g != f {
        ApplyLink(ledger, hist, followers, w, g, l, t, h, links[g].npc);
      }
    }
  }

  lemma NotifierOf(sh: Shared, w: nat, lane: Lane, f: nat)
    requires LaneInv(sh, w, lane) && f < |lane.links|
    ensures NotifierInv(sh.ledger, sh.hist, sh.followers, w, f, lane.links[f].npc)
  {
    hide Keys, ChanInv, AckInv, VotesInv, LogInv, PlacesInv, ShapeInv, OwnInv, OrderInv, NotifierInv;
    assert LinkInv(sh.ledger, sh.hist, sh.followers, w, f, lane.log, Sent(lane.pc, lane.log, f), lane.links[f]);
  }

  lemma HeldIff(sh: Shared, lanes: nat, w: nat, l: nat, k: nat)
    requires SharedInv(sh, lanes) && l < |sh.ledger| && k in Keys(sh.ledger[l].xacts) && k < |sh.db|
    requires sh.ledger[l].worker == w && !Early(sh.ledger[l].phase)
    ensures Held(sh, w, l, k) <==> k !in sh.ledger[l].released
  {
    hide Keys, SerialInv, TracksInv;
    assert KeyInv(sh.locks[k], sh.owner[k], sh.ledger, k);
  }

  /** The keys of the transfer that a notifier is working on are held as far as its stage says. */
  lemma ApplyingOf(sh: Shared, w: nat, lanes: nat, lane: Lane, f: nat)
    requires SharedInv(sh, lanes) && LaneInv(sh, w, lane) && f < |lane.links| && lane.links[f].npc.Apply?
    ensures NotifierInv(sh.ledger, sh.hist, sh.followers, w, f, lane.links[f].npc)
    ensures var e, i, stage := lane.links[f].npc.e, lane.links[f].npc.i, lane.links[f].npc.stage;
            && InRange(sh, e.lsn, e.xacts[i].req) && Disjoint(e.xacts)
            && e.xacts[i].req.from < e.xacts[i].req.to
            && (Held(sh, w, e.lsn, e.xacts[i].req.from) <==> !stage.UnlockTo? && !stage.Announce?)
            && (Held(sh, w, e.lsn, e.xacts[i].req.to) <==> !stage.Announce?)
  {
    hide Keys, Disjoint, SharedInv, LaneInv, Held, Half;
    var e, i, stage := lane.links[f].npc.e, lane.links[f].npc.i, lane.links[f].npc.stage;
    NotifierOf(sh, w, lane, f);
    TrackOf(sh, lanes, e.lsn);
    SharedShapeOf(sh, lanes);
    var r := e.xacts[i].req;
    assert Sorted(e.xacts[i], |sh.db|);
    KeyAt(e.xacts, i);
    DisjointAt(e.xacts, i);
    HeldIff(sh, lanes, w, e.lsn, r.from);
    HeldIff(sh, lanes, w, e.lsn, r.to);
  }

  // ----- a transfer, stage by stage -----

  /** Transfer `i` of entry `l` of lane `w` has come to `stage`. */
  ghost predicate At(sh: Shared, w: nat, l: nat, f: nat, xs: seq<Xact>, i: nat, stage: Stage) {
    && |sh.ledger| == |sh.hist| && Tracked(sh.ledger, w, Entry(l, xs)) && sh.ledger[l].phase == Loaded(f)
    && i < |xs| && Disjoint(xs) && InRange(sh, l, xs[i].req)
    && Progress(sh.ledger[l], sh.hist[l], xs, i, stage)
    && (Held(sh, w, l, xs[i].req.from) <==> !stage.UnlockTo? && !stage.Announce?)
    && (Held(sh, w, l, xs[i].req.to) <==> !stage.Announce?)
  }

  /** A step of `commitWork` keeps the shared invariant, and moves on by one stage. */
  ghost predicate Commits(sh: Shared, sh': Shared, lanes: nat, w: nat, l: nat, xs: seq<Xact>, i: nat, stage': Stage) {
    && SharedInv(sh', lanes) && (forall v: nat :: v != w ==> Rely(sh, sh', v))
    && l < |sh.ledger| && l < |sh.hist| && |sh'.ledger| == |sh.ledger| && |sh'.hist| == |sh.hist| && i < |xs|
    && sh'.ledger == sh.ledger[l := sh'.ledger[l]] && sh'.hist == sh.hist[l := sh'.hist[l]]
    && SameFate(sh.ledger[l], sh'.ledger[l]) && sh'.ledger[l].phase == sh.ledger[l].phase
    && Progress(sh'.ledger[l], sh'.hist[l], xs, i, stage')
  }

  lemma ReadStage(sh: Shared, lanes: nat, w: nat, l: nat, f: nat, xs: seq<Xact>, i: nat, stage: Stage)
    requires SharedInv(sh, lanes) && At(sh, w, l, f, xs, i, stage) && (stage.ReadFrom? || stage.ReadTo?)
    ensures var work := StepCommit(sh, l, xs[i].req, stage); Commits(sh, work.sh, lanes, w, l, xs, i, work.stage)
  {
    hide SharedInv, Rely, Keys, Held, Disjoint;
    DisjointAt(xs, i);
    GotKeeps(sh, lanes, w, l, if stage.ReadFrom? then xs[i].req.from else xs[i].req.to);
  }

  lemma {:induction false} PutOk(xs: seq<Xact>, h: Serial.Txn<int>, i: nat, k: nat, v: int)
    requires Disjoint(xs) && i < |xs| && (k == xs[i].req.from || k == xs[i].req.to)
    requires forall j :: 0 <= j < |xs| ==> TransferOk(xs[j].req, h)
    requires TransferOk(xs[i].req, h.(put := h.put[k := v]))
    ensures forall j :: 0 <= j < |xs| ==> TransferOk(xs[j].req, h.(put := h.put[k := v]))
  {
    forall j | 0 <= j < |xs| ensures TransferOk(xs[j].req, h.(put := h.put[k := v])) {
      assert TransferOk(xs[j].req, h);
      if j != i {
        Apart(xs, i, j);
      }
    }
  }

  lemma WriteStage(sh: Shared, lanes: nat, w: nat, l: nat, f: nat, xs: seq<Xact>, i: nat, stage: Stage)
    requires SharedInv(sh, lanes) && At(sh, w, l, f, xs, i, stage) && (stage.WriteFrom? || stage.WriteTo?)
    ensures var work := StepCommit(sh, l, xs[i].req, stage); Commits(sh, work.sh, lanes, w, l, xs, i, work.stage)
  {
    hide SharedInv, Rely, Keys, Held, Disjoint, GroupInv, Half;
    DisjointAt(xs, i);
    TrackOf(sh, lanes, l);
    assert TransferOk(xs[i].req, sh.hist[l]);
    var k := if stage.WriteFrom? then xs[i].req.from else xs[i].req.to;
    var v := if stage.WriteFrom? then stage.fromVal else stage.toVal;
    PutOk(xs, sh.hist[l], i, k, v);
    PutKeeps(sh, lanes, w, l, k, v);
  }

  lemma UnlockStage(sh: Shared, lanes: nat, w: nat, l: nat, f: nat, xs: seq<Xact>, i: nat, stage: Stage)
    requires SharedInv(sh, lanes) && At(sh, w, l, f, xs, i, stage) && (stage.UnlockFrom? || stage.UnlockTo?)
    ensures var work := StepCommit(sh, l, xs[i].req, stage); Commits(sh, work.sh, lanes, w, l, xs, i, work.stage)
  {
    hide SharedInv, Rely, Keys, Held, Disjoint;
    ReleaseKeeps(sh, lanes, w, l, if stage.UnlockFrom? then xs[i].req.from else xs[i].req.to);
  }

  lemma StageKeeps(sh: Shared, lanes: nat, w: nat, l: nat, f: nat, xs: seq<Xact>, i: nat, stage: Stage)
    requires SharedInv(sh, lanes) && At(sh, w, l, f, xs, i, stage) && !stage.Announce?
    ensures var work := StepCommit(sh, l, xs[i].req, stage); Commits(sh, work.sh, lanes, w, l, xs, i, work.stage)
  {
    hide SharedInv, At, StepCommit, Commits;
    assert InRange(sh, l, xs[i].req) by { AtRange(sh, w, l, f, xs, i, stage); }
    match stage
    case ReadFrom => ReadStage(sh, lanes, w, l, f, xs, i, stage);
    case ReadTo(_) => ReadStage(sh, lanes, w, l, f, xs, i, stage);
    case WriteFrom(_, _) => WriteStage(sh, lanes, w, l, f, xs, i, stage);
    case WriteTo(_) => WriteStage(sh, lanes, w, l, f, xs, i, stage);
    case UnlockFrom => UnlockStage(sh, lanes, w, l, f, xs, i, stage);
    case UnlockTo => UnlockStage(sh, lanes, w, l, f, xs, i, stage);
  }

  lemma AtRange(sh: Shared, w: nat, l: nat, f: nat, xs: seq<Xact>, i: nat, stage: Stage)
    requires At(sh, w, l, f, xs, i, stage)
    ensures i < |xs| && InRange(sh, l, xs[i].req)
  {
  }

  /** No lock of a worker that has not drawn a number changes hands. */
  lemma StageOwners(sh: Shared, w: nat, l: nat, f: nat, xs: seq<Xact>, i: nat, stage: Stage)
    requires At(sh, w, l, f, xs, i, stage) && !stage.Announce?
    ensures OwnersMove(sh.owner, StepCommit(sh, l, xs[i].req, stage).sh.owner, w)
  {
    hide Progress, Disjoint;
  }

  lemma OwnStays(owner: seq<Owner>, owner': seq<Owner>, w: nat, pc: WorkerPc, retry: seq<Xact>, buf: seq<Xact>)
    requires OwnInv(owner, w, pc, retry, buf) && OwnersMove(owner, owner', w)
    ensures OwnInv(owner', w, pc, retry, buf)
  {
    hide Keys;
  }

  /** What announcing transfer `i` of an entry records. */
  function Announced(t: Track, xs: seq<Xact>, i: nat): Track
    requires i < |xs|
  {
    t.(commits := t.commits + [xs[i]], phase := if i + 1 < |xs| then t.phase else Finished)
  }

  lemma AnnounceTrack(t: Track, h: Serial.Txn<int>, i: nat, n: nat, cap: nat, followers: nat, lanes: nat, votes: nat)
    requires TrackInv(n, cap, followers, lanes, t, h, votes) && i < |t.xacts| && Progress(t, h, t.xacts, i, Announce)
    requires t.phase.Loaded?
    ensures var t' := Announced(t, t.xacts, i);
            && TrackInv(n, cap, followers, lanes, t', h, votes)
            && (i + 1 < |t.xacts| ==> Progress(t', h, t.xacts, i + 1, ReadFrom))
  {
    KeysNext(t.xacts, i);
    assert t.xacts[..i + 1] == t.xacts[..i] + [t.xacts[i]];
    assert t.xacts[..|t.xacts|] == t.xacts;
    hide Keys, GroupInv, Half, TransferOk;
  }

  lemma ApplyKeeps(sh: Shared, w: nat, lanes: nat, lane: Lane, f: nat)
    requires SharedInv(sh, lanes) && LaneInv(sh, w, lane) && f < |lane.links| && lane.links[f].npc.Apply?
    requires NotifierEnabled(sh, lane, f)
    ensures Keeps(sh, w, lanes, StepNotifier(sh, lane, f))
  {
    hide Keys, SharedInv, OwnInv, OwnersMove, Rely, Half, ShapeInv, OrderInv, EntriesInv, Progress, Held, Disjoint;
    var e, i, stage := lane.links[f].npc.e, lane.links[f].npc.i, lane.links[f].npc.stage;
    var l, p := e.lsn, StepNotifier(sh, lane, f);
    ApplyingOf(sh, w, lanes, lane, f);
    SharedShapeOf(sh, lanes);
    assert At(sh, w, l, f, e.xacts, i, stage);
    if stage.Announce? {
      hide At;
      TrackOf(sh, lanes, l);
      AnnounceTrack(sh.ledger[l], sh.hist[l], i, |sh.db|, sh.cap, sh.followers, lanes, Count(sh.votes, l));
      TrackShared(sh, w, lanes, l, Announced(sh.ledger[l], e.xacts, i), sh.votes);
      assert sh.hist == sh.hist[l := sh.hist[l]];
    } else {
      StageKeeps(sh, lanes, w, l, f, e.xacts, i, stage);
      StageOwners(sh, w, l, f, e.xacts, i, stage);
      OwnStays(sh.owner, p.sh.owner, w, lane.pc, lane.retry, lane.buf);
      hide At, StepCommit;
    }
    ApplyEntries(sh.ledger, sh.hist, sh.followers, w, lane.pc, lane.log, lane.tasks, lane.links, f, l,
                 p.sh.ledger[l], p.sh.hist[l], p.lane.links[f].npc);
    MoveKeeps(sh, w, lanes, lane, p);
  }
}
