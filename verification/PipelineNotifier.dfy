/// The steps of the notifiers keep the invariant: counting a vote, loading the task, and committing its transfers.

module PipelineNotifier {
  import opened Pipeline
  import opened PipelineInvariant
  import opened PipelineWorker
  import opened PipelineLogging
  import Serial

  // ----- counting a vote -----

  /** The acknowledgement at the head of the queue is for the next entry of the follower's log, not counted before. */
  lemma NextAck(ledger: seq<Track>, hist: seq<Serial.Txn<int>>, followers: nat, w: nat, pc: WorkerPc,
                log: seq<Entry>, tasks: seq<Entry>, links: seq<Link>, f: nat)
    requires EntriesInv(ledger, hist, followers, w, pc, log, tasks, links) && f < |links| && links[f].acks != []
    ensures var l, n := links[f].acks[0], links[f].counted;
            && n < |log| && log[n].lsn == l && Tracked(ledger, w, log[n])
            && !ledger[l].phase.Drawn? && ledger[l].pos == n && f !in ledger[l].voters
  {
    hide Keys, Progress, PlacesInv, TasksInv;
    var link, n := links[f], links[f].counted;
    assert LinkInv(ledger, hist, followers, w, f, log, Sent(pc, log, f), link);
    assert link.flog[n] == (link.flog + link.chan)[n] == log[n];
    assert VoteInv(ledger[link.acks[0]], f, n);
  }

  /** The link after an acknowledgement. */
  function Heard(link: Link, npc: NotifierPc): Link
    requires link.acks != []
  {
    link.(acks := link.acks[1..], counted := link.counted + 1, npc := npc)
  }

  function Voted(t: Track, f: nat): Track {
    t.(voters := t.voters + {f})
  }

  lemma CountVotes(ledger: seq<Track>, ledger': seq<Track>, w: nat, f: nat, g: nat, l: nat, log: seq<Entry>,
                   counted: nat, counted': nat)
    requires VotesInv(ledger, w, g, counted) && l < |ledger| && ledger' == ledger[l := Voted(ledger[l], f)]
    requires counted' == if g == f then counted + 1 else counted
    requires counted < |log| || g != f
    requires g == f ==> log[counted].lsn == l && ledger[l].pos == counted
    requires g == f ==> !ledger[l].phase.Drawn? && ledger[l].worker == w
    requires forall j :: 0 <= j < |ledger| && ledger[j].worker == w && !ledger[j].phase.Drawn? ==>
               ledger[j].pos < |log| && log[ledger[j].pos].lsn == j
    ensures VotesInv(ledger', w, g, counted')
  {
    forall j | 0 <= j < |ledger'| && ledger'[j].worker == w ensures VoteInv(ledger'[j], g, counted') {
      assert VoteInv(ledger[j], g, counted);
    }
  }

  lemma CountLink(ledger: seq<Track>, ledger': seq<Track>, hist: seq<Serial.Txn<int>>, followers: nat, w: nat,
                  f: nat, g: nat, l: nat, npc: NotifierPc)
    requires NotifierInv(ledger, hist, followers, w, g, npc) && l < |ledger|
             && ledger' == ledger[l := Voted(ledger[l], f)]
    requires f !in ledger[l].voters
    ensures NotifierInv(ledger', hist, followers, w, g, npc)
  {
    hide Keys;
    if npc.Load? && npc.lsn == l {
      assert |ledger[l].voters + {f}| == |ledger[l].voters| + 1;
    }
    if npc.Apply? && npc.e.lsn == l {
      assert Progress(ledger'[l], hist[l], npc.e.xacts, npc.i, npc.stage);
    }
  }

  lemma Places(ledger: seq<Track>, w: nat, pc: WorkerPc, log: seq<Entry>, tasks: seq<Entry>, links: seq<Link>)
    requires PlacesInv(ledger, w, pc, log, tasks, links)
    ensures forall j :: 0 <= j < |ledger| && ledger[j].worker == w && !ledger[j].phase.Drawn? ==>
              ledger[j].pos < |log| && log[ledger[j].pos].lsn == j
  {
    forall j | 0 <= j < |ledger| && ledger[j].worker == w && !ledger[j].phase.Drawn?
      ensures ledger[j].pos < |log| && log[ledger[j].pos].lsn == j
    {
      assert PlaceInv(ledger[j], j, pc, log, tasks, links);
    }
  }

  lemma CountLinks(ledger: seq<Track>, hist: seq<Serial.Txn<int>>, followers: nat, w: nat, pc: WorkerPc,
                   log: seq<Entry>, tasks: seq<Entry>, links: seq<Link>, f: nat, l: nat, g: nat, link': Link)
    requires EntriesInv(ledger, hist, followers, w, pc, log, tasks, links) && f < |links| && links[f].acks != []
    requires links[f].npc.Waiting? && l == links[f].acks[0] && g < |links|
    requires if g == f then link' == Heard(links[f], link'.npc) && (link'.npc == Load(l) || link'.npc == Waiting)
             else link' == links[g]
    requires l < |ledger| && g == f && link'.npc == Load(l) ==> |ledger[l].voters| + 1 > Half(followers)
    ensures l < |ledger|
    ensures LinkInv(ledger[l := Voted(ledger[l], f)], hist, followers, w, g, log, Sent(pc, log, g), link')
  {
    hide Keys, PlacesInv, Progress, ChanInv, Half, TasksInv;
    NextAck(ledger, hist, followers, w, pc, log, tasks, links, f);
    Places(ledger, w, pc, log, tasks, links);
    hide LogInv;
    var ledger' := ledger[l := Voted(ledger[l], f)];
    assert LinkInv(ledger, hist, followers, w, g, log, Sent(pc, log, g), links[g]);
    CountVotes(ledger, ledger', w, f, g, l, log, links[g].counted, link'.counted);
    CountLink(ledger, ledger', hist, followers, w, f, g, l, links[g].npc);
    if g == f {
      assert |ledger[l].voters + {f}| == |ledger[l].voters| + 1;
    }
  }

  lemma CountPlaces(ledger: seq<Track>, w: nat, pc: WorkerPc, log: seq<Entry>, tasks: seq<Entry>,
                    links: seq<Link>, links': seq<Link>, f: nat, l: nat)
    requires PlacesInv(ledger, w, pc, log, tasks, links) && LogInv(ledger, w, pc, log) && TasksInv(ledger, w, tasks)
    requires l < |ledger| && !ledger[l].phase.Drawn? && |links'| == |links| && f < |links|
    requires links' == links[f := links'[f]] && links[f].npc.Waiting?
    ensures var ledger' := ledger[l := Voted(ledger[l], f)];
            PlacesInv(ledger', w, pc, log, tasks, links') && LogInv(ledger', w, pc, log) && TasksInv(ledger', w, tasks)
  {
    var ledger' := ledger[l := Voted(ledger[l], f)];
    forall j | 0 <= j < |ledger'| && ledger'[j].worker == w
      ensures PlaceInv(ledger'[j], j, pc, log, tasks, links')
    {
      assert PlaceInv(ledger[j], j, pc, log, tasks, links);
    }
  }

  lemma CountEntries(ledger: seq<Track>, hist: seq<Serial.Txn<int>>, followers: nat, w: nat, pc: WorkerPc,
                     log: seq<Entry>, tasks: seq<Entry>, links: seq<Link>, f: nat, l: nat, npc: NotifierPc)
    requires EntriesInv(ledger, hist, followers, w, pc, log, tasks, links) && f < |links| && links[f].acks != []
    requires links[f].npc.Waiting? && l == links[f].acks[0] && l < |ledger|
    requires npc == if |ledger[l].voters| + 1 > Half(followers) then Load(l) else Waiting
    ensures EntriesInv(ledger[l := Voted(ledger[l], f)], hist, followers, w, pc, log, tasks,
                       links[f := Heard(links[f], npc)])
  {
    hide Keys, LinkInv, PlacesInv, LogInv, TasksInv, Half;
    var links' := links[f := Heard(links[f], npc)];
    NextAck(ledger, hist, followers, w, pc, log, tasks, links, f);
    CountPlaces(ledger, w, pc, log, tasks, links, links', f, l);
    forall g | 0 <= g < |links'|
      ensures LinkInv(ledger[l := Voted(ledger[l], f)], hist, followers, w, g, log, Sent(pc, log, g), links'[g])
    {
      CountLinks(ledger, hist, followers, w, pc, log, tasks, links, f, l, g, links'[g]);
    }
  }

  lemma CountKeeps(sh: Shared, w: nat, lanes: nat, lane: Lane, f: nat)
    requires SharedInv(sh, lanes) && LaneInv(sh, w, lane) && f < |lane.links| && lane.links[f].npc.Waiting?
    requires NotifierEnabled(sh, lane, f)
    ensures Keeps(sh, w, lanes, StepCount(sh, lane, f))
  {
    hide Keys, SharedInv, OwnInv, Rely, Half, ShapeInv, OrderInv, LinkInv, PlacesInv, LogInv, TasksInv;
    var link := lane.links[f];
    var l, p := link.acks[0], StepCount(sh, lane, f);
    SharedShapeOf(sh, lanes);
    TrackOf(sh, lanes, l);
    NextAck(sh.ledger, sh.hist, sh.followers, w, lane.pc, lane.log, lane.tasks, lane.links, f);
    hide EntriesInv;
    CountEntries(sh.ledger, sh.hist, sh.followers, w, lane.pc, lane.log, lane.tasks, lane.links, f, l,
                 p.lane.links[f].npc);
    var t := Voted(sh.ledger[l], f);
    assert |t.voters| == |sh.ledger[l].voters| + 1;
    TrackShared(sh, w, lanes, l, t, sh.votes[l := Count(sh.votes, l) + 1]);
    MoveKeeps(sh, w, lanes, lane, p);
  }

  // ----- loading the task -----

  lemma LoadTasks(ledger: seq<Track>, w: nat, tasks: seq<Entry>, i: nat, f: nat)
    requires TasksInv(ledger, w, tasks) && i < |tasks|
    ensures var l := tasks[i].lsn;
            l < |ledger| && TasksInv(ledger[l := ledger[l].(phase := Loaded(f))], w, tasks[..i] + tasks[i + 1..])
    ensures tasks[i] !in tasks[..i] + tasks[i + 1..]
  {
    var l, rest := tasks[i].lsn, tasks[..i] + tasks[i + 1..];
    assert forall j :: 0 <= j < |rest| ==> rest[j] == tasks[if j < i then j else j + 1];
  }

  lemma LoadPlaces(ledger: seq<Track>, w: nat, pc: WorkerPc, log: seq<Entry>, tasks: seq<Entry>, links: seq<Link>,
                   f: nat, i: nat, link': Link)
    requires PlacesInv(ledger, w, pc, log, tasks, links) && TasksInv(ledger, w, tasks) && i < |tasks|
    requires f < |links| && !links[f].npc.Apply? && Applies(link'.npc, tasks[i])
    ensures var l := tasks[i].lsn;
            l < |ledger| && PlacesInv(ledger[l := ledger[l].(phase := Loaded(f))], w, pc, log,
                                      tasks[..i] + tasks[i + 1..], links[f := link'])
  {
    var e, rest, links' := tasks[i], tasks[..i] + tasks[i + 1..], links[f := link'];
    var ledger' := ledger[e.lsn := ledger[e.lsn].(phase := Loaded(f))];
    assert tasks == tasks[..i] + [e] + tasks[i + 1..];
    LoadTasks(ledger, w, tasks, i, f);
    hide TasksInv;
    forall j | 0 <= j < |ledger'| && ledger'[j].worker == w ensures PlaceInv(ledger'[j], j, pc, log, rest, links') {
      assert PlaceInv(ledger[j], j, pc, log, tasks, links);
      var d := Entry(j, ledger[j].xacts);
      assert d in tasks <==> d in rest || d == e;
    }
  }

  lemma LoadLinks(ledger: seq<Track>, hist: seq<Serial.Txn<int>>, followers: nat, w: nat, g: nat, f: nat, e: Entry,
                  npc: NotifierPc)
    requires NotifierInv(ledger, hist, followers, w, g, npc) && Tracked(ledger, w, e) && ledger[e.lsn].phase.Stored?
    ensures NotifierInv(ledger[e.lsn := ledger[e.lsn].(phase := Loaded(f))], hist, followers, w, g, npc)
  {
    hide Keys, Progress;
  }

  lemma LoadLog(ledger: seq<Track>, w: nat, pc: WorkerPc, log: seq<Entry>, e: Entry, f: nat)
    requires LogInv(ledger, w, pc, log) && Tracked(ledger, w, e) && ledger[e.lsn].phase.Stored?
    ensures LogInv(ledger[e.lsn := ledger[e.lsn].(phase := Loaded(f))], w, pc, log)
  {
  }

  lemma SameVotes(ledger: seq<Track>, w: nat, g: nat, counted: nat, l: nat, t: Track)
    requires VotesInv(ledger, w, g, counted) && l < |ledger| && t.worker == ledger[l].worker
    requires t.voters == ledger[l].voters && t.pos == ledger[l].pos && (t.phase.Drawn? <==> ledger[l].phase.Drawn?)
    ensures VotesInv(ledger[l := t], w, g, counted)
  {
    var ledger' := ledger[l := t];
    forall j | 0 <= j < |ledger'| && ledger'[j].worker == w ensures VoteInv(ledger'[j], g, counted) {
      assert VoteInv(ledger[j], g, counted);
    }
  }

  lemma LoadEntries(ledger: seq<Track>, hist: seq<Serial.Txn<int>>, followers: nat, w: nat, pc: WorkerPc,
                    log: seq<Entry>, tasks: seq<Entry>, links: seq<Link>, f: nat, i: nat)
    requires EntriesInv(ledger, hist, followers, w, pc, log, tasks, links) && f < |links| && i < |tasks|
    requires links[f].npc == Load(tasks[i].lsn) && tasks[i].lsn < |hist| && tasks[i].xacts != []
    requires hist[tasks[i].lsn] == Serial.Txn(map[], map[])
    requires tasks[i].lsn < |ledger| ==> ledger[tasks[i].lsn].released == {} && ledger[tasks[i].lsn].commits == []
    ensures tasks[i].lsn < |ledger|
    ensures EntriesInv(ledger[tasks[i].lsn := ledger[tasks[i].lsn].(phase := Loaded(f))], hist, followers, w, pc, log,
                       tasks[..i] + tasks[i + 1..], links[f := links[f].(npc := Apply(tasks[i], 0, ReadFrom))])
  {
    hide Keys, ChanInv, AckInv, VotesInv;
    var e := tasks[i];
    var l, link' := e.lsn, links[f].(npc := Apply(e, 0, ReadFrom));
    var t, links' := ledger[l].(phase := Loaded(f)), links[f := link'];
    LoadTasks(ledger, w, tasks, i, f);
    LoadPlaces(ledger, w, pc, log, tasks, links, f, i, link');
    assert Tracked(ledger, w, e) && ledger[l].phase.Stored?;
    LoadLog(ledger, w, pc, log, e, f);
    NoKeys(0);
    hide TasksInv, PlacesInv, LogInv;
    forall g | 0 <= g < |links'|
      ensures LinkInv(ledger[l := t], hist, followers, w, g, log, Sent(pc, log, g), links'[g])
    {
      assert LinkInv(ledger, hist, followers, w, g, log, Sent(pc, log, g), links[g]);
      LoadLinks(ledger, hist, followers, w, g, f, e, links[g].npc);
      SameVotes(ledger, w, g, links[g].counted, l, t);
    }
  }

  /** A task not found leaves only the notifier's place to change. */
  lemma WaitEntries(ledger: seq<Track>, hist: seq<Serial.Txn<int>>, followers: nat, w: nat, pc: WorkerPc,
                    log: seq<Entry>, tasks: seq<Entry>, links: seq<Link>, f: nat)
    requires EntriesInv(ledger, hist, followers, w, pc, log, tasks, links) && f < |links| && links[f].npc.Load?
    ensures EntriesInv(ledger, hist, followers, w, pc, log, tasks, links[f := links[f].(npc := Waiting)])
  {
    hide Keys, ChanInv, AckInv, VotesInv, TasksInv, LogInv, Progress;
    var links' := links[f := links[f].(npc := Waiting)];
    forall j | 0 <= j < |ledger| && ledger[j].worker == w ensures PlaceInv(ledger[j], j, pc, log, tasks, links') {
      assert PlaceInv(ledger[j], j, pc, log, tasks, links);
    }
  }

  lemma LoadKeeps(sh: Shared, w: nat, lanes: nat, lane: Lane, f: nat, l: nat)
    requires SharedInv(sh, lanes) && LaneInv(sh, w, lane) && f < |lane.links| && lane.links[f].npc == Load(l)
    requires NotifierEnabled(sh, lane, f)
    ensures Keeps(sh, w, lanes, StepLoad(sh, lane, f, l))
  {
    hide Keys, SharedInv, OwnInv, Rely, Half, ShapeInv, OrderInv, LinkInv, PlacesInv, LogInv, TasksInv;
    var p, i := StepLoad(sh, lane, f, l), FindTask(lane.tasks, l);
    SharedShapeOf(sh, lanes);
    if i < |lane.tasks| {
      LoadableOf(sh, w, lane, f, l, i);
      TrackOf(sh, lanes, l);
      hide EntriesInv;
      LoadEntries(sh.ledger, sh.hist, sh.followers, w, lane.pc, lane.log, lane.tasks, lane.links, f, i);
      TrackShared(sh, w, lanes, l, sh.ledger[l].(phase := Loaded(f)), sh.votes);
    } else {
      hide EntriesInv;
      SameRely(sh, w);
      WaitEntries(sh.ledger, sh.hist, sh.followers, w, lane.pc, lane.log, lane.tasks, lane.links, f);
    }
    MoveKeeps(sh, w, lanes, lane, p);
  }

  lemma LoadableOf(sh: Shared, w: nat, lane: Lane, f: nat, l: nat, i: nat)
    requires LaneInv(sh, w, lane) && f < |lane.links| && lane.links[f].npc == Load(l)
    requires i < |lane.tasks| && lane.tasks[i].lsn == l
    ensures Tracked(sh.ledger, w, lane.tasks[i]) && sh.ledger[l].phase.Stored?
            && |sh.ledger[l].voters| > Half(sh.followers)
  {
    hide Keys, ChanInv, AckInv, VotesInv, LogInv, PlacesInv, ShapeInv, OwnInv, OrderInv;
    assert LinkInv(sh.ledger, sh.hist, sh.followers, w, f, lane.log, Sent(lane.pc, lane.log, f), lane.links[f]);
  }
}
