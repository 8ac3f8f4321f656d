/// Recovery: what the logs of a majority of the servers hold is enough.

module PipelineRecovery {
  import opened Pipeline
  import opened PipelineInvariant
  import opened PipelineTheorems
  import opened PipelineReplay

  /** The log of worker `w` on server `f`, of which the last is the leader. */
  function LogOf(s: State, f: nat, w: nat): seq<Entry>
    requires w < |s.lanes|
  {
    if f < |s.lanes[w].links| then s.lanes[w].links[f].flog else s.lanes[w].log
  }

  /** Some of the servers still has the entry. */
  ghost predicate Survives(s: State, servers: set<nat>, l: nat) {
    && l < |s.sh.ledger| && s.sh.ledger[l].worker < |s.lanes|
    && exists f :: f in servers && Entry(l, s.sh.ledger[l].xacts) in LogOf(s, f, s.sh.ledger[l].worker)
  }

  ghost function Survivors(s: State, servers: set<nat>): set<nat> {
    set l: nat | l < |s.sh.ledger| && Survives(s, servers, l)
  }

  lemma LogsArePrefixes(s0: State, s: State, f: nat, w: nat)
    requires Reachable(s0, s) && w < |s.lanes| && f <= s.sh.followers
    ensures LogOf(s, f, w) <= s.lanes[w].log
  {
    hide Reachable;
    if f < s.sh.followers {
      FollowersLagBehind(s0, s, w, f);
    } else {
      ReachableInv(s0, s);
      hide Inv;
      LinksOf(s, w);
    }
  }

  /** One server has the longest of the logs of a worker that some servers still have: the others have prefixes of
      it. */
  lemma {:induction false} LongestLog(s0: State, s: State, servers: set<nat>, w: nat) returns (f: nat)
    requires Reachable(s0, s) && w < |s.lanes| && servers != {} && forall g :: g in servers ==> g <= s.sh.followers
    ensures f in servers && forall g :: g in servers ==> LogOf(s, g, w) <= LogOf(s, f, w)
    decreases servers
  {
    hide Reachable, LogOf;
    var g :| g in servers;
    var rest := servers - {g};
    f := g;
    if rest != {} {
      var h := LongestLog(s0, s, rest, w);
      LogsArePrefixes(s0, s, g, w);
      LogsArePrefixes(s0, s, h, w);
      f := if |LogOf(s, h, w)| <= |LogOf(s, g, w)| then g else h;
      PrefixesCompare(LogOf(s, g, w), LogOf(s, h, w), s.lanes[w].log);
    }
    forall x | x in servers ensures LogOf(s, x, w) <= LogOf(s, f, w) {
      assert x == g || x in rest;
    }
  }

  lemma PrefixesCompare(a: seq<Entry>, b: seq<Entry>, c: seq<Entry>)
    requires a <= c && b <= c
    ensures if |b| <= |a| then b <= a else a <= b
  {
  }

  /** So the entries of a worker that survive are those of its longest log. */
  lemma SurvivorsOfWorker(s0: State, s: State, servers: set<nat>, w: nat) returns (f: nat)
    requires Reachable(s0, s) && w < |s.lanes| && servers != {} && forall g :: g in servers ==> g <= s.sh.followers
    ensures f in servers
    ensures forall l :: 0 <= l < |s.sh.ledger| && s.sh.ledger[l].worker == w ==>
              (l in Survivors(s, servers) <==> Entry(l, s.sh.ledger[l].xacts) in LogOf(s, f, w))
  {
    hide Reachable, LogOf;
    f := LongestLog(s0, s, servers, w);
    forall l | 0 <= l < |s.sh.ledger| && s.sh.ledger[l].worker == w
      ensures l in Survivors(s, servers) <==> Entry(l, s.sh.ledger[l].xacts) in LogOf(s, f, w)
    {
      var e := Entry(l, s.sh.ledger[l].xacts);
      if l in Survivors(s, servers) {
        var g :| g in servers && e in LogOf(s, g, w);
        assert LogOf(s, g, w) <= LogOf(s, f, w);
      }
    }
  }

  /** More than half of all servers. */
  ghost predicate Majority(s: State, servers: set<nat>) {
    (forall f :: f in servers ==> f <= s.sh.followers) && 2 * |servers| > s.sh.followers + 1
  }

  lemma AppliedSurvives(s0: State, s: State, servers: set<nat>, l: nat)
    requires Reachable(s0, s) && Majority(s, servers) && l < |s.sh.ledger| && !Early(s.sh.ledger[l].phase)
    ensures l in Survivors(s, servers)
  {
    hide Reachable;
    AppliedIsDurable(s0, s, l, servers);
    var t := s.sh.ledger[l];
    var f :| f in servers && f < s.sh.followers && HasLog(s, f, t.worker, t.pos + 1);
    HeldSurvives(s, servers, l, f);
  }

  lemma HeldSurvives(s: State, servers: set<nat>, l: nat, f: nat)
    requires l < |s.sh.ledger| && f in servers
    requires var t := s.sh.ledger[l];
             && t.worker < |s.lanes| && t.pos < |s.lanes[t.worker].log|
             && s.lanes[t.worker].log[t.pos] == Entry(l, t.xacts) && HasLog(s, f, t.worker, t.pos + 1)
    ensures l in Survivors(s, servers)
  {
    var t := s.sh.ledger[l];
    var flog := LogOf(s, f, t.worker);
    assert flog[..t.pos + 1] == s.lanes[t.worker].log[..t.pos + 1];
    assert flog[t.pos] == flog[..t.pos + 1][t.pos] == Entry(l, t.xacts);
  }

  /** Of two entries that share a key, the first survives wherever the second has so much as a number. */
  lemma ConflictsSurvive(s0: State, s: State, servers: set<nat>, l: nat, m: nat, k: nat)
    requires Reachable(s0, s) && Majority(s, servers) && Shares(s, l, m, k)
    ensures l in Survivors(s, servers)
  {
    hide Reachable, Survives, Majority;
    ConflictsFollowLsns(s0, s, l, m, k);
    AppliedSurvives(s0, s, servers, l);
  }

  /** Whatever majority of the servers is left, with or without the leader: every entry that has begun to be applied
      is in one of their logs, and a replay of all entries in their logs, in the order of the log sequence numbers,
      gives each of its transfers the two reads that it had. */
  lemma RecoveryGivesReads(s0: State, s: State, servers: set<nat>, l: nat, i: nat, k: nat)
    requires Reachable(s0, s) && Majority(s, servers)
    requires l < |s.sh.ledger| && i < |s.sh.ledger[l].xacts| && l < |s.sh.hist|
    requires k == s.sh.ledger[l].xacts[i].req.from || k == s.sh.ledger[l].xacts[i].req.to
    requires k in s.sh.hist[l].got
    ensures l in Survivors(s, servers)
    ensures var before := Picked(s.sh.ledger, Survivors(s, servers), l) + s.sh.ledger[l].xacts[..i];
            k < |s0.sh.db| && s.sh.hist[l].got[k] == Transfers(s0.sh.db, before)[k]
  {
    hide Reachable, Survives, Transfers, Picked, Majority;
    forall m: nat | m < |s.sh.ledger| && !Early(s.sh.ledger[m].phase) ensures m in Survivors(s, servers) {
      AppliedSurvives(s0, s, servers, m);
    }
    ReadsReplay(s0, s, Survivors(s, servers), l, i, k);
  }

  /** ... and it puts on every account that is not locked what the leader's table holds there. */
  lemma RecoveryGivesTable(s0: State, s: State, servers: set<nat>, k: nat)
    requires Reachable(s0, s) && Majority(s, servers) && k < |s0.sh.db|
    ensures |s.sh.locks| == |s.sh.db| == |s0.sh.db|
    ensures var all := Picked(s.sh.ledger, Survivors(s, servers), |s.sh.ledger|);
            !s.sh.locks[k] ==> s.sh.db[k] == Transfers(s0.sh.db, all)[k]
  {
    hide Reachable, Survives, Transfers, Picked, Majority;
    forall m: nat | m < |s.sh.ledger| && !Early(s.sh.ledger[m].phase) ensures m in Survivors(s, servers) {
      AppliedSurvives(s0, s, servers, m);
    }
    UnlockedReplay(s0, s, Survivors(s, servers), k);
  }
}
