/// What the Silo protocol guarantees in every run.

module SiloTheorems {
  import Serial
  import opened Tidwords
  import opened Silo
  import opened SiloInvariant
  import opened SiloRuns

  /** `s` is reached from `s0` by some schedule of some clients. */
  ghost predicate Reachable(s0: State, s: State) {
    Start(s0) && exists steps :: s == Run(s0, steps)
  }

  lemma ReachableInv(s0: State, s: State)
    requires Reachable(s0, s)
    ensures Inv(s) && s.sh.init == s0.sh.table && |s.sh.table| == |s.sh.meta| == |s0.sh.table|
    ensures |s.thr| == |s.sh.local| == |s0.thr|
  {
    var steps :| s == Run(s0, steps);
    RunKeeps(s0, steps);
  }

  // ----- serializability -----

  /** A read set as a map from keys to values. */
  function Gets(rset: seq<ReadElement>): map<nat, Value> {
    if rset == [] then map[] else Gets(rset[..|rset| - 1])[rset[|rset| - 1].key := rset[|rset| - 1].val]
  }

  lemma {:induction false} GetsOf(rset: seq<ReadElement>, k: nat)
    requires k in Gets(rset)
    ensures exists i :: 0 <= i < |rset| && rset[i].key == k && rset[i].val == Gets(rset)[k]
  {
    var n := |rset| - 1;
    if rset[n].key == k {
      assert rset[n].val == Gets(rset)[k];
    } else {
      GetsOf(rset[..n], k);
      var i :| 0 <= i < n && rset[..n][i].key == k && rset[..n][i].val == Gets(rset[..n])[k];
      assert rset[i] == rset[..n][i];
    }
  }

  /** The committed transactions of a log, in log order. */
  function Commits(log: seq<Entry>): seq<Serial.Txn<Value>> {
    if log == [] then []
    else
      var front, e := Commits(log[..|log| - 1]), log[|log| - 1];
      if e.outcome.Done? then front + [Serial.Txn(Gets(e.gets), e.puts)] else front
  }

  function Values(table: seq<Tuple>): (r: seq<Value>)
    ensures |r| == |table|
  {
    seq(|table|, k requires 0 <= k < |table| => table[k].val)
  }

  /** Log position `src` is the last commit before `n` that wrote `k`: every writer in between is not committed. */
  ghost predicate LastCommit(log: seq<Entry>, n: int, k: nat, src: int) {
    && -1 <= src < n <= |log|
    && (src >= 0 ==> log[src].outcome.Done? && k in log[src].puts)
    && (forall j :: 0 <= j < n && src < j && k in log[j].puts ==> !log[j].outcome.Done?)
  }

  lemma {:induction false} CommitsPrefix(log: seq<Entry>, n: nat)
    requires n <= |log|
    ensures |Commits(log[..n])| <= |Commits(log)| && Commits(log[..n]) == Commits(log)[..|Commits(log[..n])|]
  {
    if n < |log| {
      CommitsPrefix(log[..|log| - 1], n);
      assert log[..|log| - 1][..n] == log[..n];
    } else {
      assert log[..n] == log;
    }
  }

  /** Serial execution of the commits before `n` leaves on `k` what its last commit wrote. */
  lemma {:induction false} ExecCommits(init: seq<Value>, log: seq<Entry>, k: nat, src: int)
    requires k < |init| && LastCommit(log, |log|, k, src)
    ensures var h := Commits(log);
            Serial.ExecTo(init, h, |h|)[k] == if src < 0 then init[k] else log[src].puts[k]
  {
    if log != [] {
      var n := |log| - 1;
      var front, h := Commits(log[..n]), Commits(log);
      if src < n {
        ExecCommits(init, log[..n], k, src);
      }
      if log[n].outcome.Done? {
        Serial.ExecPrefix(init, front, h, |front|);
      }
    }
  }

  /** The reads of every committed transaction are those of the serial execution of the commits before it. */
  lemma {:induction false} CommitsAgree(sh: Shared, n: nat)
    requires SharedInv(sh) && n <= |sh.log|
    ensures Serial.ReadsAgree(Values(sh.init), Commits(sh.log[..n]))
  {
    if n > 0 {
      hide Less, Ver;
      CommitsAgree(sh, n - 1);
      var init, front, h, e := Values(sh.init), Commits(sh.log[..n - 1]), Commits(sh.log[..n]), sh.log[n - 1];
      assert sh.log[..n][..n - 1] == sh.log[..n - 1];
      if e.outcome.Done? {
        assert h == front + [Serial.Txn(Gets(e.gets), e.puts)];
        forall i, k | 0 <= i < |h| && k in h[i].got
          ensures k < |init| && h[i].got[k] == Serial.ExecTo(init, h, i)[k]
        {
          Serial.ExecPrefix(init, front, h, i);
          if i == |front| {
            CommitReads(sh, n - 1, k);
          } else {
            assert h[i] == front[i];
          }
        }
      }
    }
  }

  /** What is known of element `i` of the read set of a committed transaction. */
  lemma DoneRead(sh: Shared, j: nat, i: nat)
    requires SharedInv(sh) && j < |sh.log| && sh.log[j].outcome.Done? && i < |sh.log[j].gets|
    ensures var e := sh.log[j];
            && |e.srcs| == |e.gets| && ReadOk(sh.log, j, e.gets[i].key, e.srcs[i])
            && Source(sh.init, sh.log, e.gets[i].key, e.gets[i].val, e.gets[i].word, e.srcs[i])
  {
    hide Less, Ver, RecordInv, LiveInv, OrdersInv, BasesInv, ReadOk, Source, ValidTid;
    assert LogInv(sh, j);
  }

  lemma CommitReads(sh: Shared, j: nat, k: nat)
    requires SharedInv(sh) && j < |sh.log| && sh.log[j].outcome.Done? && k in Gets(sh.log[j].gets)
    ensures var h := Commits(sh.log[..j]);
            k < |sh.init| && Gets(sh.log[j].gets)[k] == Serial.ExecTo(Values(sh.init), h, |h|)[k]
  {
    hide Ver, SharedInv;
    var e := sh.log[j];
    GetsOf(e.gets, k);
    var i :| 0 <= i < |e.gets| && e.gets[i].key == k && e.gets[i].val == Gets(e.gets)[k];
    DoneRead(sh, j, i);
    hide Gets;
    var log := sh.log[..j];
    assert LastCommit(log, |log|, k, e.srcs[i]);
    ExecCommits(Values(sh.init), log, k, e.srcs[i]);
  }

  /** A write shorter than the record goes over what serial execution of the commits before it leaves there. */
  lemma WriteIsSerial(sh: Shared, j: nat, i: nat)
    requires SharedInv(sh) && j < |sh.log| && i < |sh.log[j].writes|
    ensures var h, w := Commits(sh.log[..j]), sh.log[j].writes[i];
            && w.key < |sh.init| && w.key in sh.log[j].puts
            && sh.log[j].puts[w.key] == Over(Serial.ExecTo(Values(sh.init), h, |h|)[w.key], w.val)
  {
    hide Less, Ver, RecordInv, LiveInv, OrdersInv, Over;
    assert LogInv(sh, j) && BaseInv(sh.init, sh.log, j, i);
    var k, src, log := sh.log[j].writes[i].key, sh.log[j].bases[i], sh.log[..j];
    assert LastCommit(log, |log|, k, src);
    ExecCommits(Values(sh.init), log, k, src);
  }

  /** A committed transaction that read a record and wrote some of its bytes kept the others as it had read them. */
  lemma WriteOverRead(sh: Shared, j: nat, i: nat, m: nat)
    requires SharedInv(sh) && j < |sh.log| && sh.log[j].outcome.Done? && i < |sh.log[j].writes|
    requires m < |sh.log[j].gets| && sh.log[j].gets[m].key == sh.log[j].writes[i].key
    ensures var w := sh.log[j].writes[i];
            w.key in sh.log[j].puts && sh.log[j].puts[w.key] == Over(sh.log[j].gets[m].val, w.val)
  {
    hide Less, Ver, RecordInv, LiveInv, OrdersInv, Over, DoneInv, BasesInv;
    var gets := sh.log[j].gets;
    assert LogInv(sh, j);
    GetsAt(gets, m);
    WriteIsSerial(sh, j, i);
    CommitReads(sh, j, gets[m].key);
  }

  lemma {:induction false} GetsAt(rset: seq<ReadElement>, m: nat)
    requires DistinctReads(rset) && m < |rset|
    ensures rset[m].key in Gets(rset) && Gets(rset)[rset[m].key] == rset[m].val
  {
    var n := |rset| - 1;
    if m < n {
      assert ApartReads(rset, m, n);
      forall i, j ensures ApartReads(rset[..n], i, j) {
        assert ApartReads(rset, i, j);
      }
      GetsAt(rset[..n], m);
    }
  }

  /** No executor is in the middle of installing record `k`. */
  predicate Settled(s: State, k: nat)
    requires k < |s.sh.meta|
  {
    var o := s.sh.meta[k].owner;
    0 <= o < |s.thr| ==> !s.thr[o].pc.Install?
  }

  lemma TableIsSerial(s: State, k: nat)
    requires Inv(s) && k < |s.sh.table| && Settled(s, k)
    ensures var h := Commits(s.sh.log);
            Serial.ExecTo(Values(s.sh.init), h, |h|)[k] == s.sh.table[k].val
  {
    hide Less, Ver;
    var sh, o := s.sh, s.sh.meta[k].owner;
    assert RecordInv(sh, k);
    if o >= 0 {
      assert LocalInv(sh, o, s.thr[o]);
    }
    assert LastCommit(sh.log, |sh.log|, k, sh.meta[k].src) by {
      forall j | 0 <= j < |sh.log| && sh.meta[k].src < j && k in sh.log[j].puts ensures !sh.log[j].outcome.Done? {
        assert LiveInv(sh.meta, sh.log, j, k);
        assert sh.log[j].thread >= 0;
      }
    }
    ExecCommits(Values(sh.init), sh.log, k, sh.meta[k].src);
  }

  /** Serializability. In every run, under any schedule and any clients: executing the committed transactions one
      at a time, in the order of their epoch loads after locking, gives each of them the values it read, and
      leaves the final table (records in the middle of an install excepted). */
  lemma SiloSerializable(s0: State, s: State)
    requires Reachable(s0, s)
    ensures |s.sh.table| == |s.sh.meta| == |s0.sh.table|
    ensures Serial.ReadsAgree(Values(s0.sh.table), Commits(s.sh.log))
    ensures forall k :: 0 <= k < |s.sh.table| && Settled(s, k) ==>
              s.sh.table[k].val == Serial.ExecTo(Values(s0.sh.table), Commits(s.sh.log), |Commits(s.sh.log)|)[k]
  {
    hide SharedInv, LocalInv, LagInv, Reachable;
    ReachableInv(s0, s);
    assert s.sh.log[..|s.sh.log|] == s.sh.log;
    CommitsAgree(s.sh, |s.sh.log|);
    forall k | 0 <= k < |s.sh.table| && Settled(s, k)
      ensures s.sh.table[k].val == Serial.ExecTo(Values(s0.sh.table), Commits(s.sh.log), |Commits(s.sh.log)|)[k]
    {
      TableIsSerial(s, k);
    }
  }

  /** With deterministic client programs: running the committed programs serially, from the initial table and
      with nothing interleaved, ends in the same table. */
  lemma SiloRunsPrograms(s0: State, s: State, progs: seq<Serial.Program<Value>>)
    requires Reachable(s0, s) && |progs| == |Commits(s.sh.log)|
    requires forall i :: 0 <= i < |progs| ==> progs[i](Commits(s.sh.log)[i].got) == Commits(s.sh.log)[i].put
    ensures |s.sh.table| == |s.sh.meta| == |s0.sh.table|
    ensures forall k :: 0 <= k < |s.sh.table| && Settled(s, k) ==>
              s.sh.table[k].val == Serial.RunTo(Values(s0.sh.table), progs, Commits(s.sh.log), |progs|)[k]
  {
    SiloSerializable(s0, s);
    Serial.ProgramsReplay(Values(s0.sh.table), progs, Commits(s.sh.log), |progs|);
  }

  // ----- versions, epochs and conflicts -----

  /** Transaction `j` read the version of `k` that transaction `i` wrote. */
  ghost predicate WriteRead(log: seq<Entry>, i: int, j: int, k: nat) {
    && 0 <= i < |log| && 0 <= j < |log| && log[i].outcome.Done? && log[j].outcome.Done? && k in log[i].puts
    && exists m :: 0 <= m < |log[j].gets| && log[j].gets[m].key == k
                   && Ver(log[j].gets[m].word) == Ver(log[i].outcome.word)
  }

  /** The record `k` that transaction `j` locked and wrote had been left there by log position `src`. */
  ghost predicate WroteOver(log: seq<Entry>, j: int, k: nat, src: int) {
    0 <= j < |log| && exists m :: 0 <= m < |log[j].writes| && m < |log[j].bases| && log[j].writes[m].key == k
                                  && log[j].bases[m] == src
  }

  /** ... directly or by a chain of such writes. */
  ghost predicate Overwrote(log: seq<Entry>, i: int, j: int, k: nat)
    decreases j
  {
    0 <= j && exists src :: src < j && WroteOver(log, j, k, src)
                            && (src == i || (0 <= src && Overwrote(log, i, src, k)))
  }

  /** Committed transaction `j` overwrote, directly or not, what transaction `i` left on `k`. */
  ghost predicate WriteWrite(log: seq<Entry>, i: int, j: int, k: nat) {
    0 <= i < |log| && 0 <= j < |log| && log[j].outcome.Done? && Overwrote(log, i, j, k)
  }

  /** Transaction `j` overwrote the version of `k` that transaction `i` read. */
  ghost predicate ReadWrite(log: seq<Entry>, i: int, j: int, k: nat) {
    && 0 <= i < |log| && 0 <= j < |log| && i != j && log[i].outcome.Done? && log[j].outcome.Done? && k in log[j].puts
    && exists m :: 0 <= m < |log[i].gets| && log[i].gets[m].key == k
                   && Ver(log[i].gets[m].word) < Ver(log[j].outcome.word)
  }

  /** What was overwritten was committed, and comes before. */
  lemma {:induction false} OverwroteBefore(sh: Shared, i: nat, j: nat, k: nat)
    requires SharedInv(sh) && j < |sh.log| && Overwrote(sh.log, i, j, k)
    ensures i < j && sh.log[i].outcome.Done? && k in sh.log[i].puts && k in sh.log[j].puts
    decreases j
  {
    hide SharedInv;
    var src :| src < j && WroteOver(sh.log, j, k, src) && (src == i || (0 <= src && Overwrote(sh.log, i, src, k)));
    var m: nat :| m < |sh.log[j].writes| && m < |sh.log[j].bases| && sh.log[j].writes[m].key == k
                  && sh.log[j].bases[m] == src;
    BaseFacts(sh, j, m);
    if src != i {
      OverwroteBefore(sh, i, src, k);
    }
  }

  lemma BaseFacts(sh: Shared, j: nat, m: nat)
    requires SharedInv(sh) && j < |sh.log| && m < |sh.log[j].writes|
    ensures m < |sh.log[j].bases| && BaseInv(sh.init, sh.log, j, m)
  {
    hide Less, Ver, RecordInv, LiveInv, OrdersInv, DoneInv, OversInv, PrevInv, BaseInv;
    assert LogInv(sh, j);
  }

  /** Of two commits that write the same key, the later one in the log overwrote the earlier one. */
  lemma {:induction false} LaterOverwrites(sh: Shared, i: nat, j: nat, k: nat)
    requires SharedInv(sh) && i < j < |sh.log| && sh.log[i].outcome.Done? && k in sh.log[i].puts && k in sh.log[j].puts
    ensures Overwrote(sh.log, i, j, k)
    decreases j
  {
    hide SharedInv;
    var m := WriteOfKey(sh, j, k);
    BaseFacts(sh, j, m);
    var src := sh.log[j].bases[m];
    assert WroteOver(sh.log, j, k, src);
    assert i <= src;
    if i < src {
      LaterOverwrites(sh, i, src, k);
    }
  }

  lemma WriteOfKey(sh: Shared, j: nat, k: nat) returns (m: nat)
    requires SharedInv(sh) && j < |sh.log| && k in sh.log[j].puts
    ensures m < |sh.log[j].writes| && sh.log[j].writes[m].key == k
  {
    hide Less, Ver, RecordInv, LiveInv, OrdersInv, DoneInv, OversInv, PrevInv, BaseInv;
    assert LogInv(sh, j);
    m :| m < |sh.log[j].writes| && sh.log[j].writes[m].key == k;
  }

  /** A read of `k` by `j` under the version of commit `i` comes from `i`, before it; a read of an older version
      comes before it too. */
  lemma ReadFromOne(sh: Shared, i: nat, j: nat, k: nat, m: nat)
    requires SharedInv(sh) && i < |sh.log| && j < |sh.log|
    requires sh.log[i].outcome.Done? && sh.log[j].outcome.Done? && k in sh.log[i].puts
    requires m < |sh.log[j].gets| && sh.log[j].gets[m].key == k
    ensures Ver(sh.log[j].gets[m].word) == Ver(sh.log[i].outcome.word) ==> i < j
    ensures Ver(sh.log[j].gets[m].word) < Ver(sh.log[i].outcome.word) && i != j ==> j < i
  {
    hide Less, Ver, RecordInv, LiveInv, ValidTid, OrdersInv;
    assert LogInv(sh, j) && LogInv(sh, i);
    OneSource(sh, i, j, k, sh.log[j].gets[m].word, sh.log[j].srcs[m]);
  }

  lemma OneSource(sh: Shared, i: nat, j: nat, k: nat, w: Tidword, src: int)
    requires OrdersInv(sh.log) && i < |sh.log| && j < |sh.log|
    requires sh.log[i].outcome.Done? && k in sh.log[i].puts && k < |sh.init|
    requires Ver(sh.init[k].word) < Ver(sh.log[i].outcome.word)
    requires ReadOk(sh.log, j, k, src) && Installed(sh.init, sh.log, k, w, src)
    ensures Ver(w) == Ver(sh.log[i].outcome.word) ==> i < j
    ensures Ver(w) < Ver(sh.log[i].outcome.word) && i != j ==> j < i
  {
    hide Less, Ver;
    assert Ordered(sh.log, i, src) && Ordered(sh.log, src, i);
  }

  /** Every conflict between committed transactions agrees with the serial order and with the epochs; reads-from
      and overwrites also raise the TID, and each commit TID carries the epoch of its serialization point. */
  lemma ConflictsFollowEpochs(s0: State, s: State, i: nat, j: nat, k: nat)
    requires Reachable(s0, s)
    requires WriteRead(s.sh.log, i, j, k) || WriteWrite(s.sh.log, i, j, k) || ReadWrite(s.sh.log, i, j, k)
    ensures i < j && s.sh.log[i].outcome.Done? && s.sh.log[j].outcome.Done?
    ensures s.sh.log[i].epoch <= s.sh.log[j].epoch
    ensures s.sh.log[i].outcome.word.epoch == s.sh.log[i].epoch
    ensures s.sh.log[j].outcome.word.epoch == s.sh.log[j].epoch
    ensures WriteRead(s.sh.log, i, j, k) || WriteWrite(s.sh.log, i, j, k) ==>
              Ver(s.sh.log[i].outcome.word) < Ver(s.sh.log[j].outcome.word)
    ensures WriteWrite(s.sh.log, i, j, k) ==> k in s.sh.log[i].puts && k in s.sh.log[j].puts
  {
    hide Less, Ver, RecordInv, LiveInv, LocalInv, LagInv, Reachable, Overwrote, BasesInv, OversInv, PrevInv, ReadOk;
    ReachableInv(s0, s);
    var sh := s.sh;
    if WriteWrite(sh.log, i, j, k) {
      OverwroteBefore(sh, i, j, k);
    }
    assert LogInv(sh, i) && LogInv(sh, j);
    assert Ordered(sh.log, i, j) && Ordered(sh.log, j, i);
    if WriteRead(sh.log, i, j, k) {
      var m: nat :| m < |sh.log[j].gets| && sh.log[j].gets[m].key == k
               && Ver(sh.log[j].gets[m].word) == Ver(sh.log[i].outcome.word);
      ReadFromOne(sh, i, j, k, m);
      CommitAboveReads(sh, j, m);
    }
    if ReadWrite(sh.log, i, j, k) {
      var m: nat :| m < |sh.log[i].gets| && sh.log[i].gets[m].key == k
               && Ver(sh.log[i].gets[m].word) < Ver(sh.log[j].outcome.word);
      ReadFromOne(sh, j, i, k, m);
    }
  }

  /** Two commits that write the same key are in a write-write conflict, one way or the other. */
  lemma WritersConflict(s0: State, s: State, i: nat, j: nat, k: nat)
    requires Reachable(s0, s) && i < |s.sh.log| && j < |s.sh.log| && i != j
    requires s.sh.log[i].outcome.Done? && s.sh.log[j].outcome.Done? && k in s.sh.log[i].puts && k in s.sh.log[j].puts
    ensures WriteWrite(s.sh.log, i, j, k) <==> !WriteWrite(s.sh.log, j, i, k)
  {
    hide SharedInv, LocalInv, LagInv, Reachable, Overwrote;
    ReachableInv(s0, s);
    var a, b := if i < j then i else j, if i < j then j else i;
    LaterOverwrites(s.sh, a, b, k);
    if Overwrote(s.sh.log, b, a, k) {
      OverwroteBefore(s.sh, b, a, k);
    }
  }

  lemma CommitAboveReads(sh: Shared, j: nat, m: nat)
    requires SharedInv(sh) && j < |sh.log| && sh.log[j].outcome.Done? && m < |sh.log[j].gets|
    ensures Ver(sh.log[j].gets[m].word) < Ver(sh.log[j].outcome.word)
  {
    hide Less, Ver, RecordInv, LiveInv;
    assert LogInv(sh, j);
    assert sh.log[j].outcome.seen[m] in sh.log[j].outcome.seen;
  }

  /** The version that log position `src` left on a key (-1: the initial one). */
  function VersionAt(init: seq<Tuple>, log: seq<Entry>, key: nat, src: int): int
    requires key < |init|
  {
    if 0 <= src < |log| && log[src].outcome.Done? then Ver(log[src].outcome.word) else Ver(init[key].word)
  }

  /** A TID that entry `j` could have: in the epoch of its serialization point, above the version of every record it
      read, above the version of every record it overwrote, and above every TID of its worker before, which start
      from zero. */
  ghost predicate Eligible(init: seq<Tuple>, log: seq<Entry>, j: nat, v: Tidword)
    requires j < |log| && |log[j].bases| == |log[j].writes|
    requires forall m :: 0 <= m < |log[j].writes| ==> log[j].writes[m].key < |init|
  {
    var e := log[j];
    && v.epoch == e.epoch && 0 < Ver(v)
    && (forall m :: 0 <= m < |e.gets| ==> Ver(e.gets[m].word) < Ver(v))
    && (forall m :: 0 <= m < |e.writes| ==> VersionAt(init, log, e.writes[m].key, e.bases[m]) < Ver(v))
    && (forall i :: 0 <= i < j && log[i].thread == e.thread && log[i].outcome.Done? ==>
          Ver(log[i].outcome.word) < Ver(v))
  }

  /** The words recorded for a commit are those versions. */
  lemma EligibleIsValid(sh: Shared, j: nat, v: Tidword)
    requires SharedInv(sh) && j < |sh.log| && sh.log[j].outcome.Done?
    ensures |sh.log[j].bases| == |sh.log[j].writes|
    ensures forall m :: 0 <= m < |sh.log[j].writes| ==> sh.log[j].writes[m].key < |sh.init|
    ensures var o := sh.log[j].outcome;
            Eligible(sh.init, sh.log, j, v) <==> ValidTid(v, o.over, o.seen, o.prev, sh.log[j].epoch)
  {
    var e, o := sh.log[j], sh.log[j].outcome;
    RecordedWords(sh, j);
    hide SharedInv, Ver, OversInv, PrevInv, Installed;
    assert Ver(ZERO) == 0 by { ZeroVersion(); }
    EligibleReads(e.gets, o.seen, v);
    EligibleWrites(sh.init, sh.log, j, v);
    EligiblePrev(sh.log, j, v);
  }

  lemma RecordedWords(sh: Shared, j: nat)
    requires SharedInv(sh) && j < |sh.log| && sh.log[j].outcome.Done?
    ensures var e, o := sh.log[j], sh.log[j].outcome;
            && |o.seen| == |e.gets| && (forall m :: 0 <= m < |o.seen| ==> Ver(o.seen[m]) == Ver(e.gets[m].word))
            && |e.bases| == |e.writes| && (forall m :: 0 <= m < |e.writes| ==> e.writes[m].key < |sh.init|)
            && OversInv(sh.init, sh.log, j) && PrevInv(sh.log, j)
  {
    hide Less, Ver, RecordInv, LiveInv, OrdersInv, ReadOk, Source, ValidTid, OversInv, PrevInv;
    assert LogInv(sh, j);
    forall m | 0 <= m < |sh.log[j].writes| ensures sh.log[j].writes[m].key < |sh.init| {
      assert BaseInv(sh.init, sh.log, j, m);
    }
  }

  lemma ZeroVersion()
    ensures Ver(ZERO) == 0
  {
  }

  lemma EligibleReads(gets: seq<ReadElement>, seen: seq<Tidword>, v: Tidword)
    requires |seen| == |gets| && forall m :: 0 <= m < |seen| ==> Ver(seen[m]) == Ver(gets[m].word)
    ensures (forall x :: x in seen ==> Ver(x) < Ver(v)) <==>
            forall m :: 0 <= m < |gets| ==> Ver(gets[m].word) < Ver(v)
  {
    hide Ver;
    if forall x :: x in seen ==> Ver(x) < Ver(v) {
      forall m | 0 <= m < |gets| ensures Ver(gets[m].word) < Ver(v) {
        assert seen[m] in seen;
      }
    }
  }

  lemma EligibleWrites(init: seq<Tuple>, log: seq<Entry>, j: nat, v: Tidword)
    requires j < |log| && log[j].outcome.Done? && OversInv(init, log, j)
    requires forall m :: 0 <= m < |log[j].writes| ==> log[j].writes[m].key < |init|
    ensures |log[j].bases| == |log[j].writes|
    ensures (forall x :: x in log[j].outcome.over ==> Ver(x) < Ver(v)) <==>
            forall m :: 0 <= m < |log[j].writes| ==>
              VersionAt(init, log, log[j].writes[m].key, log[j].bases[m]) < Ver(v)
  {
    hide Ver;
    var e, over := log[j], log[j].outcome.over;
    forall m | 0 <= m < |over|
      ensures Ver(over[m]) == VersionAt(init, log, e.writes[m].key, e.bases[m]) && over[m] in over
    {
      assert Installed(init, log, e.writes[m].key, over[m], e.bases[m]);
    }
  }

  lemma EligiblePrev(log: seq<Entry>, j: nat, v: Tidword)
    requires j < |log| && log[j].outcome.Done? && PrevInv(log, j) && Ver(ZERO) == 0
    ensures Ver(log[j].outcome.prev) < Ver(v) <==>
            && 0 < Ver(v)
            && forall i :: 0 <= i < j && log[i].thread == log[j].thread && log[i].outcome.Done? ==>
                 Ver(log[i].outcome.word) < Ver(v)
  {
    assert 0 <= Ver(log[j].outcome.prev);
    hide Ver;
  }

  /** A worker's commit TIDs strictly increase, and each is the least one that the transaction could have (see
      `Eligible`); what it overwrote is on each key the last commit before it. */
  lemma CommitTids(s0: State, s: State, j: nat)
    requires Reachable(s0, s) && j < |s.sh.log| && s.sh.log[j].outcome.Done?
    ensures forall i :: 0 <= i < j && s.sh.log[i].outcome.Done? && s.sh.log[i].thread == s.sh.log[j].thread ==>
              Ver(s.sh.log[i].outcome.word) < Ver(s.sh.log[j].outcome.word)
    ensures var e := s.sh.log[j];
            && |e.bases| == |e.writes|
            && (forall k :: k in e.puts ==> exists m :: 0 <= m < |e.writes| && e.writes[m].key == k)
            && (forall m :: 0 <= m < |e.writes| ==>
                  e.writes[m].key < |s0.sh.table| && LastCommit(s.sh.log, j, e.writes[m].key, e.bases[m]))
            && Eligible(s0.sh.table, s.sh.log, j, e.outcome.word)
            && (forall v: Tidword | Eligible(s0.sh.table, s.sh.log, j, v) :: Ver(e.outcome.word) <= Ver(v))
  {
    hide Less, Ver, RecordInv, LiveInv, LocalInv, LagInv, Reachable, Eligible, LastCommit, BaseInv, DoneInv, OversInv;
    hide PrevInv;
    ReachableInv(s0, s);
    var sh, e := s.sh, s.sh.log[j];
    assert LogInv(sh, j);
    forall i | 0 <= i < j && sh.log[i].outcome.Done? && sh.log[i].thread == e.thread
      ensures Ver(sh.log[i].outcome.word) < Ver(e.outcome.word)
    {
      assert Ordered(sh.log, i, j);
    }
    hide OrdersInv;
    assert |s0.sh.table| == |sh.init|;
    forall m | 0 <= m < |e.writes| ensures LastCommit(sh.log, j, e.writes[m].key, e.bases[m]) {
      LastBefore(sh, j, m);
    }
    EligibleIsValid(sh, j, e.outcome.word);
    assert Eligible(sh.init, sh.log, j, e.outcome.word) by { LeastValid(sh, j, e.outcome.word); }
    forall v: Tidword | Eligible(sh.init, sh.log, j, v) ensures Ver(e.outcome.word) <= Ver(v) {
      EligibleIsValid(sh, j, v);
      LeastValid(sh, j, v);
    }
  }

  lemma LeastValid(sh: Shared, j: nat, v: Tidword)
    requires SharedInv(sh) && j < |sh.log| && sh.log[j].outcome.Done?
    ensures var e, o := sh.log[j], sh.log[j].outcome;
            && ValidTid(o.word, o.over, o.seen, o.prev, e.epoch)
            && (ValidTid(v, o.over, o.seen, o.prev, e.epoch) ==> Ver(o.word) <= Ver(v))
  {
    hide Less, Ver, RecordInv, LiveInv, OrdersInv, ReadOk, Source, ValidTid, OversInv, PrevInv, BasesInv;
    assert LogInv(sh, j);
  }

  lemma LastBefore(sh: Shared, j: nat, m: nat)
    requires SharedInv(sh) && j < |sh.log| && m < |sh.log[j].writes|
    ensures m < |sh.log[j].bases| && LastCommit(sh.log, j, sh.log[j].writes[m].key, sh.log[j].bases[m])
  {
    hide Less, Ver, RecordInv, LiveInv, OrdersInv, DoneInv, OversInv, PrevInv, Over;
    assert LogInv(sh, j) && BaseInv(sh.init, sh.log, j, m);
  }

  // ----- reads are not torn -----

  ghost predicate WroteVersion(log: seq<Entry>, j: int, k: nat, w: Tidword) {
    0 <= j < |log| && log[j].outcome.Done? && k in log[j].puts && Ver(log[j].outcome.word) == Ver(w)
  }

  /** Whatever is in a read set is the value that was installed under the recorded (epoch, tid), byte for byte:
      it is the initial value or that of a commit, and any commit that wrote the key under that version wrote it. */
  lemma ReadsAreExact(s0: State, s: State, t: nat, i: nat)
    requires Reachable(s0, s) && t < |s.thr| && i < |s.thr[t].rset|
    ensures var r := s.thr[t].rset[i];
            && r.key < |s0.sh.table|
            && ((Ver(r.word) == Ver(s0.sh.table[r.key].word) && r.val == s0.sh.table[r.key].val)
                || exists j :: WroteVersion(s.sh.log, j, r.key, r.word))
            && (forall j :: WroteVersion(s.sh.log, j, r.key, r.word) ==> r.val == s.sh.log[j].puts[r.key])
  {
    hide Less, Ver, RecordInv, LiveInv, LagInv, Reachable;
    ReachableInv(s0, s);
    var r, src := s.thr[t].rset[i], s.thr[t].srcs[i];
    ReadOfThread(s, t, i);
    if src >= 0 {
      assert WroteVersion(s.sh.log, src, r.key, r.word);
    }
    forall j | WroteVersion(s.sh.log, j, r.key, r.word) ensures r.val == s.sh.log[j].puts[r.key] {
      OneWriter(s.sh, j, r.key, r.val, r.word, src);
    }
  }

  lemma ReadOfThread(s: State, t: nat, i: nat)
    requires Inv(s) && t < |s.thr| && i < |s.thr[t].rset|
    ensures i < |s.thr[t].srcs| && ReadInv(s.sh, s.thr[t].rset[i], s.thr[t].srcs[i])
    ensures s.thr[t].rset[i].key < |s.sh.table|
  {
    hide Less, Ver, SharedInv, LagInv;
    assert LocalInv(s.sh, t, s.thr[t]);
  }

  lemma DoneAbove(sh: Shared, j: nat, k: nat)
    requires SharedInv(sh) && j < |sh.log| && sh.log[j].outcome.Done? && k in sh.log[j].puts
    ensures k < |sh.init| && Ver(sh.init[k].word) < Ver(sh.log[j].outcome.word)
  {
    hide Less, Ver, RecordInv, LiveInv, OrdersInv, BasesInv, ReadOk, Source, ValidTid;
    assert LogInv(sh, j);
  }

  lemma OneWriter(sh: Shared, j: nat, k: nat, val: Value, w: Tidword, src: int)
    requires SharedInv(sh) && WroteVersion(sh.log, j, k, w) && Source(sh.init, sh.log, k, val, w, src)
    ensures val == sh.log[j].puts[k]
  {
    hide Less, Ver, RecordInv, LiveInv, LogInv;
    DoneAbove(sh, j, k);
    assert Ordered(sh.log, j, src) && Ordered(sh.log, src, j);
    hide OrdersInv;
    assert Installed(sh.init, sh.log, k, w, src);
  }

  // ----- locks -----

  ghost predicate HeldBy(l: Local, k: nat) {
    Holds(l.wset, Lo(l.pc), Hi(l.pc, |l.wset|), k)
  }

  /** A record's lock bit is set exactly when some executor holds it, and no two hold the same record. An executor
      between transactions, or done with an abort, holds none. */
  lemma LockOwnership(s0: State, s: State, k: nat)
    requires Reachable(s0, s) && k < |s0.sh.table|
    ensures |s.sh.table| == |s0.sh.table|
    ensures s.sh.table[k].word.lock <==> exists t :: 0 <= t < |s.thr| && HeldBy(s.thr[t], k)
    ensures forall t, u :: 0 <= t < |s.thr| && 0 <= u < |s.thr| && HeldBy(s.thr[t], k) && HeldBy(s.thr[u], k) ==> t == u
    ensures forall t :: 0 <= t < |s.thr| && (s.thr[t].pc.Ready? || s.thr[t].pc.Failed?) ==> !HeldBy(s.thr[t], k)
  {
    hide Less, Ver, LogInv, LiveInv, LocalInv, LagInv, Reachable;
    ReachableInv(s0, s);
    assert RecordInv(s.sh, k);
    forall t | 0 <= t < |s.thr| ensures HeldBy(s.thr[t], k) <==> s.sh.meta[k].owner == t {
      OwnerHolds(s, t, k);
    }
    var o := s.sh.meta[k].owner;
    assert o >= 0 ==> HeldBy(s.thr[o], k);
  }

  lemma OwnerHolds(s: State, t: nat, k: nat)
    requires Inv(s) && t < |s.thr| && k < |s.sh.table|
    ensures HeldBy(s.thr[t], k) <==> s.sh.meta[k].owner == t
  {
    hide Less, Ver, LagInv;
    assert LocalInv(s.sh, t, s.thr[t]);
  }

  /** The step writes to record `k` on behalf of a committed transaction. */
  ghost predicate Installs(sh: Shared, l: Local, a: Action, k: nat) {
    && a.Tick? && l.pc.Install? && l.pc.i < |l.wset| && l.wset[l.pc.i].key == k
    && 0 <= l.entry < |sh.log| && sh.log[l.entry].outcome.Done?
  }

  /** One step of any run changes the version of at most the record being installed by a committed transaction,
      and only upwards, to that transaction's commit TID; it changes the bytes of that record only. A transaction
      that aborts never gets there: it leaves every value and every (epoch, tid) as they were. */
  lemma VersionsRise(s0: State, s: State, t: nat, a: Action, k: nat)
    requires Reachable(s0, s) && k < |s0.sh.table| && t < |s.thr| && Enabled(s.sh, t, s.thr[t], a)
    ensures var s' := Next(s, Step(t, a));
            && |s.sh.table| == |s'.sh.table| == |s0.sh.table|
            && (s'.sh.table[k].val == s.sh.table[k].val || Installs(s.sh, s.thr[t], a, k))
            && (if Installs(s.sh, s.thr[t], a, k) && s.thr[t].pc.b >= |s.thr[t].wset[s.thr[t].pc.i].val|
                then Ver(s.sh.table[k].word) < Ver(s'.sh.table[k].word)
                     && s'.sh.table[k].word == s.sh.log[s.thr[t].entry].outcome.word
                else Ver(s'.sh.table[k].word) == Ver(s.sh.table[k].word))
  {
    hide Less, Ver, Act, SharedInv, LocalInv, LagInv, Reachable;
    ReachableInv(s0, s);
    StepOnRecord(s.sh, t, s.thr[t], a, k);
  }

  lemma StepOnRecord(sh: Shared, t: nat, l: Local, a: Action, k: nat)
    requires SharedInv(sh) && LocalInv(sh, t, l) && Enabled(sh, t, l, a) && k < |sh.table|
    ensures var sh' := Act(sh, t, l, a).sh;
            && |sh'.table| == |sh.table|
            && (sh'.table[k].val == sh.table[k].val || Installs(sh, l, a, k))
            && (if Installs(sh, l, a, k) && l.pc.b >= |l.wset[l.pc.i].val|
                then Ver(sh.table[k].word) < Ver(sh'.table[k].word) && sh'.table[k].word == sh.log[l.entry].outcome.word
                else Ver(sh'.table[k].word) == Ver(sh.table[k].word))
  {
    hide Less, Max, CommitWord, SharedInv, LocksInv, PastInv, ReadsInv, CopyInv, MaxInv, EpochInv, ReadsOk, HeldInv,
      SettledInv;
    if a.Tick? && l.pc.Install? {
      StepInstalls(sh, t, l, k);
    } else if a.Tick? {
      StepUnlocks(sh, t, l, k);
    }
  }

  lemma StepInstalls(sh: Shared, t: nat, l: Local, k: nat)
    requires SharedInv(sh) && LocalInv(sh, t, l) && TickEnabled(sh, t, l) && l.pc.Install? && k < |sh.table|
    ensures var sh' := TickPair(sh, t, l).sh;
            && |sh'.table| == |sh.table|
            && (sh'.table[k].val == sh.table[k].val || Installs(sh, l, Tick, k))
            && (if Installs(sh, l, Tick, k) && l.pc.b >= |l.wset[l.pc.i].val|
                then Ver(sh.table[k].word) < Ver(sh'.table[k].word) && sh'.table[k].word == sh.log[l.entry].outcome.word
                else Ver(sh'.table[k].word) == Ver(sh.table[k].word))
  {
    hide Less, Ver, LocksInv, PastInv, ReadsInv, MaxInv, EpochInv, ReadsOk, HeldInv, SettledInv, RecordInv, LogInv,
      LiveInv;
  }

  lemma StepUnlocks(sh: Shared, t: nat, l: Local, k: nat)
    requires SharedInv(sh) && LocalInv(sh, t, l) && TickEnabled(sh, t, l) && !l.pc.Install? && k < |sh.table|
    ensures var sh' := TickPair(sh, t, l).sh;
            |sh'.table| == |sh.table| && sh'.table[k].val == sh.table[k].val
            && Ver(sh'.table[k].word) == Ver(sh.table[k].word)
  {
    hide Less, Max, CommitWord, PastInv, ReadsInv, MaxInv, EpochInv, ReadsOk, HeldInv, SettledInv, SharedInv;
    hide LocksInv, EntryInv, CopyInv, OverInv, SeenInv, NewerInv, BytesInv, LocalShape, SortByKey, Puts, SearchWrite;
  }

  // ----- epochs -----

  /** A worker's slot never runs ahead of the global epoch nor more than one behind it, a value loaded and not yet
      stored is between the two, and neither the slot nor the global epoch ever goes back. Worker 0, which no scan
      checks, only satisfies the upper bound. */
  lemma EpochLag(s0: State, s: State, step: Step, t: nat)
    requires Reachable(s0, s) && t < |s0.thr|
    ensures |s.sh.local| == |s.thr| == |s0.thr|
    ensures s.sh.local[t] <= s.sh.epoch && (t >= 1 ==> s.sh.epoch - s.sh.local[t] <= 1)
    ensures s.thr[t].pc.EpochStore? ==> s.sh.local[t] <= s.thr[t].pc.e <= s.sh.epoch
    ensures var s' := Next(s, step);
            |s'.sh.local| == |s.sh.local| && s.sh.local[t] <= s'.sh.local[t]
            && s.sh.epoch <= s'.sh.epoch && s'.sh.epoch - s.sh.epoch <= 1
  {
    hide Less, Ver, SharedInv, LocalInv, Reachable, TickEnabled, Act;
    ReachableInv(s0, s);
    assert SlotInv(s.sh.epoch, s.sh.local[t], t, s.thr[t].pc);
    if step.t < |s.thr| && Enabled(s.sh, step.t, s.thr[step.t], step.a) {
      assert SlotInv(s.sh.epoch, s.sh.local[step.t], step.t, s.thr[step.t].pc);
      StepOnEpochs(s.sh, step.t, s.thr[step.t], step.a);
    }
  }

  lemma StepOnEpochs(sh: Shared, t: nat, l: Local, a: Action)
    requires Enabled(sh, t, l, a) && t < |sh.local|
    ensures var sh' := Act(sh, t, l, a).sh;
            && (sh'.epoch == sh.epoch || sh'.epoch - sh.epoch == 1)
            && (sh'.local == sh.local || (l.pc.EpochStore? && sh'.local == sh.local[t := l.pc.e]))
  {
    if !(a.Tick? && l.pc.Scan? && l.pc.i >= |sh.local|) {
      hide Act;
      ActSlots(sh, t, l, a);
    }
  }
}
