/// Logging and replication keep the invariant: drawing a log sequence number, appending, sending, storing the task,
/// and the steps of the log receivers.

module PipelineLogging {
  import opened Pipeline
  import opened PipelineInvariant
  import opened PipelineWorker
  import Serial

  // ----- drawing a log sequence number -----

  lemma DrawSerial(sh: Shared, w: nat, lane: Lane)
    requires SerialInv(sh)
    ensures SerialInv(StepDraw(sh, w, lane).sh)
  {
    var h, none := sh.hist, Serial.Txn(map[], map[]);
    var h' := h + [none];
    Serial.ExecPrefix(sh.init, h, h', |h|);
    assert Serial.Install(sh.db, map[]) == sh.db;
    assert h'[..|h|] == h;
    forall i, k | 0 <= i < |h'| && k in h'[i].got
      ensures k < |sh.init| && h'[i].got[k] == Serial.ExecTo(sh.init, h', i)[k]
    {
      assert h'[i] == h[i];
      Serial.ExecPrefix(sh.init, h, h', i);
    }
  }

  /** The keys of the buffer pass to the new entry, which comes after all that had them before. */
  lemma DrawKeys(sh: Shared, w: nat, lane: Lane)
    requires SharedShape(sh) && KeysInv(sh) && OwnInv(sh.owner, w, lane.pc, lane.retry, lane.buf)
    ensures var sh' := StepDraw(sh, w, lane).sh; SharedShape(sh') && KeysInv(sh')
  {
    hide Keys;
    var sh' := StepDraw(sh, w, lane).sh;
    forall k | 0 <= k < |sh'.db| ensures KeyInv(sh'.locks[k], sh'.owner[k], sh'.ledger, k) {
      assert KeyInv(sh.locks[k], sh.owner[k], sh.ledger, k);
    }
  }

  lemma DrawTracks(sh: Shared, w: nat, lanes: nat, lane: Lane)
    requires SharedShape(sh) && TracksInv(sh, lanes) && ShapeInv(|sh.db|, sh.cap, lane) && lane.pc.Draw? && w < lanes
    ensures var sh' := StepDraw(sh, w, lane).sh; SharedShape(sh') && TracksInv(sh', lanes)
  {
    hide Keys, GroupInv;
    var sh' := StepDraw(sh, w, lane).sh;
    var l := |sh.ledger|;
    assert TrackInv(|sh.db|, sh.cap, sh.followers, lanes, sh'.ledger[l], sh'.hist[l], Count(sh.votes, l));
  }

  lemma DrawEntries(ledger: seq<Track>, hist: seq<Serial.Txn<int>>, followers: nat, w: nat, lane: Lane)
    requires EntriesInv(ledger, hist, followers, w, lane.pc, lane.log, lane.tasks, lane.links) && lane.pc.Draw?
    requires |hist| == |ledger|
    ensures EntriesInv(ledger + [Track(w, lane.buf, Drawn, 0, {}, {}, [])],
                       hist + [Serial.Txn(map[], map[])], followers,
                       w, Append(Entry(|ledger|, lane.buf)), lane.log, lane.tasks, lane.links)
  {
    hide Keys, ChanInv, AckInv, Progress;
    var l, pc' := |ledger|, Append(Entry(|ledger|, lane.buf));
    var ledger', hist' := ledger + [Track(w, lane.buf, Drawn, 0, {}, {}, [])], hist + [Serial.Txn(map[], map[])];
    assert PlaceInv(ledger'[l], l, pc', lane.log, lane.tasks, lane.links);
    forall f | 0 <= f < |lane.links|
      ensures LinkInv(ledger', hist', followers, w, f, lane.log, Sent(pc', lane.log, f), lane.links[f])
    {
      assert LinkInv(ledger, hist, followers, w, f, lane.log, Sent(lane.pc, lane.log, f), lane.links[f]);
      assert NotifierInv(ledger', hist', followers, w, f, lane.links[f].npc);
    }
  }

  lemma DrawOwn(sh: Shared, w: nat, lane: Lane)
    requires SharedShape(sh) && OwnInv(sh.owner, w, lane.pc, lane.retry, lane.buf) && lane.pc.Draw?
    ensures var p := StepDraw(sh, w, lane); OwnInv(p.sh.owner, w, p.lane.pc, p.lane.retry, p.lane.buf)
  {
    NoKeys(|sh.db|);
    hide Keys;
  }

  lemma DrawShape(sh: Shared, w: nat, lane: Lane)
    requires ShapeInv(|sh.db|, sh.cap, lane) && lane.pc.Draw?
    ensures var p := StepDraw(sh, w, lane); ShapeInv(|p.sh.db|, p.sh.cap, p.lane)
  {
    NoKeys(|sh.db|);
    hide GroupInv;
  }

  lemma DrawOrder(sh: Shared, w: nat, lane: Lane)
    requires OrderInv(lane) && lane.pc.Draw?
    ensures OrderInv(StepDraw(sh, w, lane).lane)
  {
    hide Flat, Normal;
    assert Content(StepDraw(sh, w, lane).lane) == Content(lane);
  }

  lemma NoKeys(n: nat)
    ensures Keys([]) == {} && GroupInv([], n)
  {
  }

  lemma DrawKeeps(sh: Shared, w: nat, lanes: nat, lane: Lane)
    requires SharedInv(sh, lanes) && LaneInv(sh, w, lane) && lane.pc.Draw? && w < lanes
    ensures Keeps(sh, w, lanes, StepDraw(sh, w, lane))
  {
    var p := StepDraw(sh, w, lane);
    hide KeysInv, TracksInv, SerialInv, ShapeInv, EntriesInv, OrderInv, OwnInv, Keys;
    DrawSerial(sh, w, lane);
    DrawKeys(sh, w, lane);
    DrawTracks(sh, w, lanes, lane);
    DrawOwn(sh, w, lane);
    DrawShape(sh, w, lane);
    DrawOrder(sh, w, lane);
    DrawEntries(sh.ledger, sh.hist, sh.followers, w, lane);
    forall v: nat | v != w ensures Rely(sh, p.sh, v) {
      DrawRely(sh, w, lane, v);
    }
  }

  lemma DrawRely(sh: Shared, w: nat, lane: Lane, v: nat)
    requires SharedShape(sh) && OwnInv(sh.owner, w, lane.pc, lane.retry, lane.buf) && v != w
    ensures Rely(sh, StepDraw(sh, w, lane).sh, v)
  {
    hide Keys;
  }

  // ----- steps that only move an entry along -----

  /** A change of what is recorded about an entry of lane `w`, short of its transfers and its locks. */
  predicate SameGroup(t: Track, t': Track) {
    t'.worker == t.worker && t'.xacts == t.xacts && t'.released == t.released
  }

  lemma TrackShared(sh: Shared, w: nat, lanes: nat, l: nat, t: Track, votes: map<nat, nat>)
    requires SharedInv(sh, lanes) && l < |sh.ledger| && SameGroup(sh.ledger[l], t) && t.worker == w
    requires forall j: nat :: j in votes ==> j < |sh.ledger|
    requires forall j: nat :: j != l ==> Count(votes, j) == Count(sh.votes, j)
    requires TrackInv(|sh.db|, sh.cap, sh.followers, lanes, t, sh.hist[l], Count(votes, l))
    ensures SharedInv(SetTrack(sh, l, t).(votes := votes), lanes)
    ensures forall v: nat :: v != w ==> Rely(sh, SetTrack(sh, l, t).(votes := votes), v)
  {
    hide TrackInv, Keys, Count, SerialInv;
    var sh' := SetTrack(sh, l, t).(votes := votes);
    SameSerial(sh, sh');
    forall k | 0 <= k < |sh'.db| ensures KeyInv(sh'.locks[k], sh'.owner[k], sh'.ledger, k) {
      assert KeyInv(sh.locks[k], sh.owner[k], sh.ledger, k);
    }
    forall j | 0 <= j < |sh'.ledger|
      ensures TrackInv(|sh'.db|, sh'.cap, sh'.followers, lanes, sh'.ledger[j], sh'.hist[j], Count(sh'.votes, j))
    {
      assert TrackInv(|sh.db|, sh.cap, sh.followers, lanes, sh.ledger[j], sh.hist[j], Count(sh.votes, j));
    }
  }

  lemma TrackOf(sh: Shared, lanes: nat, l: nat)
    requires SharedInv(sh, lanes) && l < |sh.ledger|
    ensures |sh.hist| == |sh.ledger|
    ensures TrackInv(|sh.db|, sh.cap, sh.followers, lanes, sh.ledger[l], sh.hist[l], Count(sh.votes, l))
  {
    hide TrackInv, KeyInv, SerialInv;
  }

  lemma FlatAppend(log: seq<Entry>, e: Entry)
    ensures Flat(log + [e]) == Flat(log) + e.xacts
  {
    assert (log + [e])[..|log|] == log;
  }

  /** Steps that move entries along, and transfers not at all. */
  lemma MoveKeeps(sh: Shared, w: nat, lanes: nat, lane: Lane, p: Pair)
    requires LaneInv(sh, w, lane) && SharedInv(p.sh, lanes) && forall v: nat :: v != w ==> Rely(sh, p.sh, v)
    requires |p.sh.db| == |sh.db| && p.sh.cap == sh.cap && p.sh.followers == sh.followers
    requires p.lane.buf == lane.buf && p.lane.retry == lane.retry && p.lane.queue == lane.queue
             && p.lane.enq == lane.enq
    requires |p.lane.links| == |lane.links| && PcMoves(lane.pc, p.lane.pc, |lane.links|)
    requires Flat(p.lane.log) + InFlight(p.lane.pc) == Flat(lane.log) + InFlight(lane.pc)
    requires OwnInv(p.sh.owner, w, lane.pc, lane.retry, lane.buf)
    requires EntriesInv(p.sh.ledger, p.sh.hist, p.sh.followers, w, p.lane.pc, p.lane.log, p.lane.tasks, p.lane.links)
    ensures Keeps(sh, w, lanes, p)
  {
    hide SharedInv, EntriesInv, Rely, Flat, InFlight, Normal;
    SharedShapeOf(p.sh, lanes);
    MoveShape(|sh.db|, sh.cap, lane, p.lane);
    assert Content(p.lane) == Content(lane);
    MoveOwn(p.sh.owner, w, lane.pc, p.lane.pc, |lane.links|, lane.retry, lane.buf);
    hide OwnInv, ShapeInv, Content;
  }

  predicate PcMoves(pc: WorkerPc, pc': WorkerPc, links: nat) {
    || pc' == pc
    || (pc.Append? && pc'.Send? && pc'.f == 0)
    || (pc.Send? && (pc'.Fetch? || (pc'.Send? && pc'.f <= links)))
  }

  lemma MoveShape(n: nat, cap: nat, lane: Lane, lane': Lane)
    requires ShapeInv(n, cap, lane) && PcMoves(lane.pc, lane'.pc, |lane.links|) && cap > 0
    requires lane'.buf == lane.buf && lane'.retry == lane.retry && lane'.queue == lane.queue
    requires |lane'.links| == |lane.links|
    ensures ShapeInv(n, cap, lane')
  {
    hide GroupInv;
  }

  lemma MoveOwn(owner: seq<Owner>, w: nat, pc: WorkerPc, pc': WorkerPc, links: nat, retry: seq<Xact>, buf: seq<Xact>)
    requires OwnInv(owner, w, pc, retry, buf) && PcMoves(pc, pc', links)
    ensures OwnInv(owner, w, pc', retry, buf)
  {
    hide Keys;
  }

  lemma AppendLink(ledger: seq<Track>, ledger': seq<Track>, hist: seq<Serial.Txn<int>>, followers: nat,
                   w: nat, f: nat, log: seq<Entry>, e: Entry, link: Link)
    requires LinkInv(ledger, hist, followers, w, f, log, |log|, link)
    requires Tracked(ledger, w, e) && ledger[e.lsn].phase.Drawn? && f !in ledger[e.lsn].voters
    requires ledger' == ledger[e.lsn := ledger[e.lsn].(phase := Logged, pos := |log|)]
    ensures LinkInv(ledger', hist, followers, w, f, log + [e], |log|, link)
  {
    hide Keys, Progress;
    assert (log + [e])[..|log|] == log[..|log|];
    forall j | 0 <= j < |ledger'| && ledger'[j].worker == w ensures VoteInv(ledger'[j], f, link.counted) {
      assert VoteInv(ledger[j], f, link.counted);
    }
    assert NotifierInv(ledger', hist, followers, w, f, link.npc);
  }

  lemma AppendEntries(ledger: seq<Track>, hist: seq<Serial.Txn<int>>, followers: nat, w: nat, lane: Lane, e: Entry)
    requires EntriesInv(ledger, hist, followers, w, lane.pc, lane.log, lane.tasks, lane.links) && lane.pc == Append(e)
    ensures EntriesInv(ledger[e.lsn := ledger[e.lsn].(phase := Logged, pos := |lane.log|)], hist, followers,
                       w, Send(e, 0), lane.log + [e], lane.tasks, lane.links)
  {
    hide Keys, ChanInv, AckInv, LinkInv;
    var pc', log' := Send(e, 0), lane.log + [e];
    var ledger' := ledger[e.lsn := ledger[e.lsn].(phase := Logged, pos := |lane.log|)];
    assert PlaceInv(ledger[e.lsn], e.lsn, lane.pc, lane.log, lane.tasks, lane.links);
    forall j | 0 <= j < |ledger'| && ledger'[j].worker == w
      ensures PlaceInv(ledger'[j], j, pc', log', lane.tasks, lane.links)
    {
      assert PlaceInv(ledger[j], j, lane.pc, lane.log, lane.tasks, lane.links);
    }
    forall f | 0 <= f < |lane.links|
      ensures LinkInv(ledger', hist, followers, w, f, log', Sent(pc', log', f), lane.links[f])
    {
      assert LinkInv(ledger, hist, followers, w, f, lane.log, Sent(lane.pc, lane.log, f), lane.links[f]);
      AppendLink(ledger, ledger', hist, followers, w, f, lane.log, e, lane.links[f]);
    }
  }

  lemma DrawnOf(sh: Shared, w: nat, lane: Lane, e: Entry)
    requires LaneInv(sh, w, lane) && lane.pc == Append(e)
    ensures Tracked(sh.ledger, w, e) && sh.ledger[e.lsn].phase.Drawn?
  {
    hide LinkInv, ShapeInv, OwnInv, OrderInv, PlacesInv, TasksInv;
  }

  lemma AppendKeeps(sh: Shared, w: nat, lanes: nat, lane: Lane, e: Entry)
    requires SharedInv(sh, lanes) && LaneInv(sh, w, lane) && lane.pc == Append(e) && WorkerEnabled(sh, lane)
    ensures Keeps(sh, w, lanes, StepAppend(sh, lane, e))
  {
    hide Keys, EntriesInv, SharedInv, OwnInv, Rely;
    var t := sh.ledger[e.lsn].(phase := Logged, pos := |lane.log|);
    var p := StepAppend(sh, lane, e);
    DrawnOf(sh, w, lane, e);
    SharedShapeOf(sh, lanes);
    TrackOf(sh, lanes, e.lsn);
    TrackShared(sh, w, lanes, e.lsn, t, sh.votes);
    assert p.sh == SetTrack(sh, e.lsn, t).(votes := sh.votes);
    AppendEntries(sh.ledger, sh.hist, sh.followers, w, lane, e);
    FlatAppend(lane.log, e);
    MoveKeeps(sh, w, lanes, lane, p);
  }

  // ----- sending -----

  lemma SendLinks(ledger: seq<Track>, hist: seq<Serial.Txn<int>>, followers: nat, w: nat, lane: Lane, e: Entry, f: nat)
    requires EntriesInv(ledger, hist, followers, w, lane.pc, lane.log, lane.tasks, lane.links)
    requires lane.pc == Send(e, f) && f < |lane.links|
    ensures var links' := lane.links[f := lane.links[f].(chan := lane.links[f].chan + [e])];
            EntriesInv(ledger, hist, followers, w, Send(e, f + 1), lane.log, lane.tasks, links')
  {
    hide Keys, AckInv, VotesInv, Progress;
    var link := lane.links[f];
    var link' := link.(chan := link.chan + [e]);
    var links', pc', n := lane.links[f := link'], Send(e, f + 1), |lane.log|;
    SendPlaces(ledger, w, lane, e, f);
    forall g | 0 <= g < |links'|
      ensures LinkInv(ledger, hist, followers, w, g, lane.log, Sent(pc', lane.log, g), links'[g])
    {
      assert LinkInv(ledger, hist, followers, w, g, lane.log, Sent(lane.pc, lane.log, g), lane.links[g]);
      if g == f {
        assert lane.log[..n] == lane.log[..n - 1] + [e];
        assert link.flog + link'.chan == (link.flog + link.chan) + [e];
      }
    }
  }

  lemma SendPlaces(ledger: seq<Track>, w: nat, lane: Lane, e: Entry, f: nat)
    requires PlacesInv(ledger, w, lane.pc, lane.log, lane.tasks, lane.links)
    requires lane.pc == Send(e, f) && f < |lane.links|
    ensures var links' := lane.links[f := lane.links[f].(chan := lane.links[f].chan + [e])];
            PlacesInv(ledger, w, Send(e, f + 1), lane.log, lane.tasks, links')
  {
    var links' := lane.links[f := lane.links[f].(chan := lane.links[f].chan + [e])];
    forall l | 0 <= l < |ledger| && ledger[l].worker == w
      ensures PlaceInv(ledger[l], l, Send(e, f + 1), lane.log, lane.tasks, links')
    {
      assert PlaceInv(ledger[l], l, lane.pc, lane.log, lane.tasks, lane.links);
    }
  }

  lemma StoreEntries(ledger: seq<Track>, hist: seq<Serial.Txn<int>>, followers: nat, w: nat, lane: Lane, e: Entry)
    requires EntriesInv(ledger, hist, followers, w, lane.pc, lane.log, lane.tasks, lane.links)
    requires lane.pc.Send? && lane.pc.e == e && lane.pc.f >= |lane.links|
    ensures Tracked(ledger, w, e)
    ensures EntriesInv(ledger[e.lsn := ledger[e.lsn].(phase := Stored)], hist, followers,
                       w, Fetch, lane.log, lane.tasks + [e], lane.links)
  {
    hide Keys, ChanInv, AckInv, Progress;
    var ledger' := ledger[e.lsn := ledger[e.lsn].(phase := Stored)];
    var tasks' := lane.tasks + [e];
    assert PlaceInv(ledger[e.lsn], e.lsn, lane.pc, lane.log, lane.tasks, lane.links);
    forall j | 0 <= j < |ledger'| && ledger'[j].worker == w
      ensures PlaceInv(ledger'[j], j, Fetch, lane.log, tasks', lane.links)
    {
      assert PlaceInv(ledger[j], j, lane.pc, lane.log, lane.tasks, lane.links);
    }
    forall f | 0 <= f < |lane.links|
      ensures LinkInv(ledger', hist, followers, w, f, lane.log, Sent(Fetch, lane.log, f), lane.links[f])
    {
      assert LinkInv(ledger, hist, followers, w, f, lane.log, Sent(lane.pc, lane.log, f), lane.links[f]);
      forall j | 0 <= j < |ledger'| && ledger'[j].worker == w ensures VoteInv(ledger'[j], f, lane.links[f].counted) {
        assert VoteInv(ledger[j], f, lane.links[f].counted);
      }
    }
  }

  lemma LoggedOf(sh: Shared, w: nat, lane: Lane, e: Entry)
    requires LaneInv(sh, w, lane) && lane.pc.Send? && lane.pc.e == e
    ensures Tracked(sh.ledger, w, e) && sh.ledger[e.lsn].phase.Logged?
  {
    hide LinkInv, ShapeInv, OwnInv, OrderInv, PlacesInv, TasksInv;
  }

  lemma SendKeeps(sh: Shared, w: nat, lanes: nat, lane: Lane, e: Entry, f: nat)
    requires SharedInv(sh, lanes) && LaneInv(sh, w, lane) && lane.pc == Send(e, f) && WorkerEnabled(sh, lane)
    ensures Keeps(sh, w, lanes, StepSend(sh, lane, e, f))
  {
    hide Keys, EntriesInv, SharedInv, OwnInv, Rely;
    var p := StepSend(sh, lane, e, f);
    SharedShapeOf(sh, lanes);
    if f < |lane.links| {
      SameRely(sh, w);
      SendLinks(sh.ledger, sh.hist, sh.followers, w, lane, e, f);
    } else {
      TrackOf(sh, lanes, e.lsn);
      LoggedOf(sh, w, lane, e);
      var t := sh.ledger[e.lsn].(phase := Stored);
      TrackShared(sh, w, lanes, e.lsn, t, sh.votes);
      assert p.sh == SetTrack(sh, e.lsn, t).(votes := sh.votes);
      StoreEntries(sh.ledger, sh.hist, sh.followers, w, lane, e);
    }
    MoveKeeps(sh, w, lanes, lane, p);
  }

  lemma SameRely(sh: Shared, w: nat)
    requires SharedShape(sh)
    ensures forall v: nat :: v != w ==> Rely(sh, sh, v)
  {
  }

  // ----- log receivers -----

  lemma ReceiverLink(ledger: seq<Track>, hist: seq<Serial.Txn<int>>, followers: nat, w: nat, f: nat, log: seq<Entry>,
                     sent: nat, link: Link)
    requires LinkInv(ledger, hist, followers, w, f, log, sent, link) && ReceiverEnabled(link)
    ensures LinkInv(ledger, hist, followers, w, f, log, sent, StepReceiver(link))
  {
    hide VotesInv, NotifierInv;
    var link' := StepReceiver(link);
    if link.rpc.Receiving? {
      assert link'.flog + link'.chan == link.flog + link.chan;
    }
  }

  lemma ReceiverEntries(sh: Shared, w: nat, lane: Lane, f: nat)
    requires EntriesInv(sh.ledger, sh.hist, sh.followers, w, lane.pc, lane.log, lane.tasks, lane.links)
    requires f < |lane.links| && ReceiverEnabled(lane.links[f])
    ensures EntriesInv(sh.ledger, sh.hist, sh.followers, w, lane.pc, lane.log, lane.tasks,
                       SetLink(lane, f, StepReceiver(lane.links[f])).links)
  {
    hide Keys, LinkInv, LogInv, TasksInv;
    var lane' := SetLink(lane, f, StepReceiver(lane.links[f]));
    forall g | 0 <= g < |lane'.links|
      ensures LinkInv(sh.ledger, sh.hist, sh.followers, w, g, lane.log, Sent(lane.pc, lane.log, g), lane'.links[g])
    {
      if g == f {
        ReceiverLink(sh.ledger, sh.hist, sh.followers, w, f, lane.log, Sent(lane.pc, lane.log, f), lane.links[f]);
      }
    }
    forall l | 0 <= l < |sh.ledger| && sh.ledger[l].worker == w
      ensures PlaceInv(sh.ledger[l], l, lane.pc, lane.log, lane.tasks, lane'.links)
    {
      assert PlaceInv(sh.ledger[l], l, lane.pc, lane.log, lane.tasks, lane.links);
    }
  }

  lemma ReceiverKeeps(sh: Shared, w: nat, lanes: nat, lane: Lane, f: nat)
    requires SharedInv(sh, lanes) && LaneInv(sh, w, lane) && f < |lane.links| && ReceiverEnabled(lane.links[f])
    ensures Keeps(sh, w, lanes, Pair(sh, SetLink(lane, f, StepReceiver(lane.links[f]))))
  {
    hide Keys, EntriesInv, SharedInv, OwnInv, Rely;
    SharedShapeOf(sh, lanes);
    SameRely(sh, w);
    ReceiverEntries(sh, w, lane, f);
    MoveKeeps(sh, w, lanes, lane, Pair(sh, SetLink(lane, f, StepReceiver(lane.links[f]))));
  }
}
