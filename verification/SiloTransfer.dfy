/// Money under Silo: no run of transfers creates or destroys any.

module SiloTransfer {
  import Serial
  import opened Tidwords
  import opened Silo
  import opened SiloInvariant
  import opened SiloTheorems
  import SiloCommit
  import opened Amounts

  /** The sum of all balances. */
  function Total(vals: seq<Value>): int {
    if vals == [] then 0
    else Total(vals[..|vals| - 1]) + (if |vals[|vals| - 1]| == 4 then Decode(vals[|vals| - 1]) else 0)
  }

  lemma {:induction false} TotalUpdate(vals: seq<Value>, k: nat, v: Value)
    requires k < |vals| && |vals[k]| == 4 && |v| == 4
    ensures Total(vals[k := v]) == Total(vals) - Decode(vals[k]) + Decode(v)
  {
    var n := |vals| - 1;
    if k < n {
      TotalUpdate(vals[..n], k, v);
      assert vals[k := v][..n] == vals[..n][k := v];
    } else {
      assert vals[k := v][..n] == vals[..n];
    }
  }

  /** Equal balances up to the wrap-around of a 32-bit sum. */
  ghost predicate Same(a: int, b: int) {
    exists q :: a == b + q * WORD
  }

  /** Plus changes a balance by the amount, up to wrap-around. */
  lemma PlusAdds(v: Value, d: int)
    requires |v| == 4
    ensures |Plus(v, d)| == 4 && Same(Decode(Plus(v, d)), Decode(v) + d)
  {
    var n := Decode(v) + d;
    DecodeEncode(n % WORD);
    assert n % WORD == n + (-(n / WORD)) * WORD;
  }

  ghost predicate Balances(vals: seq<Value>) {
    forall k :: 0 <= k < |vals| ==> |vals[k]| == 4
  }

  /** What a committed `transferWork` leaves on its two accounts. */
  lemma LeavesOf(sh: Shared, j: nat, r: Request, dflt: Value)
    requires SharedInv(sh) && j < |sh.log| && sh.log[j].outcome.Done? && Attempts(sh.log[j], r, dflt)
    ensures Leaves(sh.log[j], r, dflt)
  {
    var e := sh.log[j];
    WriteOverRead(sh, j, 0, 0);
    WriteOverRead(sh, j, 1, 1);
    hide Less, Ver, RecordInv, LiveInv, OrdersInv, DoneInv, BaseInv, Over, Given, Plus, SharedInv;
    PutsOnlyWrites(sh, j);
    assert e.writes[0].key == r.from && e.writes[1].key == r.to;
    assert e.puts.Keys == {r.from, r.to};
  }

  lemma PutsOnlyWrites(sh: Shared, j: nat)
    requires SharedInv(sh) && j < |sh.log|
    ensures forall k :: k in sh.log[j].puts ==> exists i :: 0 <= i < |sh.log[j].writes| && sh.log[j].writes[i].key == k
  {
    hide Less, Ver, RecordInv, LiveInv, OrdersInv, DoneInv, BaseInv;
    assert LogInv(sh, j);
  }

  /** Every committed transaction of the log is a transfer. */
  ghost predicate OnlyTransfers(log: seq<Entry>) {
    forall j :: 0 <= j < |log| && log[j].outcome.Done? ==> exists r :: IsTransfer(log[j], r)
  }

  lemma GetsOfTwo(rset: seq<ReadElement>)
    requires |rset| == 2 && rset[0].key != rset[1].key
    ensures Gets(rset) == map[rset[0].key := rset[0].val, rset[1].key := rset[1].val]
  {
    var one := rset[..1];
    assert Gets(one[..0]) == map[];
    assert Gets(one) == map[rset[0].key := rset[0].val];
  }

  lemma ReadsAgreePrefix(init: seq<Value>, front: seq<Serial.Txn<Value>>, h: seq<Serial.Txn<Value>>)
    requires Serial.ReadsAgree(init, h) && |front| <= |h| && front == h[..|front|]
    ensures Serial.ReadsAgree(init, front)
  {
    forall i, k | 0 <= i < |front| && k in front[i].got
      ensures k < |init| && front[i].got[k] == Serial.ExecTo(init, front, i)[k]
    {
      Serial.ExecPrefix(init, front, h, i);
      assert k in h[i].got;
    }
  }

  // ----- accounting -----

  /** The sum over the committed entries of what each has added to the balances. */
  function Gains(log: seq<Entry>): int {
    if log == [] then 0
    else Gains(log[..|log| - 1]) + (if log[|log| - 1].outcome.Done? then Gain(log[|log| - 1]) else 0)
  }

  /** What an entry over two balances has added to them. */
  function Gain(e: Entry): int {
    if IsMove(e) then Decode(e.puts[e.gets[0].key]) - Decode(e.gets[0].val)
                      + Decode(e.puts[e.gets[1].key]) - Decode(e.gets[1].val)
    else 0
  }

  /** The entry reads two balances and writes both. */
  predicate IsMove(e: Entry) {
    && |e.gets| == 2 && e.gets[0].key != e.gets[1].key && |e.gets[0].val| == 4 && |e.gets[1].val| == 4
    && e.puts.Keys == {e.gets[0].key, e.gets[1].key}
    && |e.puts[e.gets[0].key]| == 4 && |e.puts[e.gets[1].key]| == 4
  }

  lemma MoveChangesTotal(vals: seq<Value>, e: Entry)
    requires Balances(vals) && IsMove(e)
    requires forall i :: 0 <= i < 2 ==> e.gets[i].key < |vals| && vals[e.gets[i].key] == e.gets[i].val
    ensures Balances(Serial.Install(vals, e.puts)) && Total(Serial.Install(vals, e.puts)) == Total(vals) + Gain(e)
  {
    var k, m := e.gets[0].key, e.gets[1].key;
    var one := vals[k := e.puts[k]];
    assert Serial.Install(vals, e.puts) == one[m := e.puts[m]];
    TotalUpdate(vals, k, e.puts[k]);
    TotalUpdate(one, m, e.puts[m]);
  }

  /** Serial execution of entries over two balances changes the total by their gains. */
  lemma {:induction false} SerialGains(init: seq<Value>, log: seq<Entry>)
    requires Balances(init) && Serial.ReadsAgree(init, Commits(log))
    requires forall j :: 0 <= j < |log| && log[j].outcome.Done? ==> IsMove(log[j])
    ensures var h := Commits(log);
            && Balances(Serial.ExecTo(init, h, |h|))
            && Total(Serial.ExecTo(init, h, |h|)) == Total(init) + Gains(log)
  {
    var h := Commits(log);
    if log != [] {
      hide Decode, Gain, Balances, Total;
      var n := |log| - 1;
      var front := Commits(log[..n]);
      CommitsPrefix(log, n);
      ReadsAgreePrefix(init, front, h);
      SerialGains(init, log[..n]);
      Serial.ExecPrefix(init, front, h, |front|);
      if log[n].outcome.Done? {
        assert h[|front|] == Serial.Txn(Gets(log[n].gets), log[n].puts);
        MoveReads(init, h, |front|, log[n]);
        MoveChangesTotal(Serial.ExecTo(init, h, |front|), log[n]);
      }
    }
  }

  lemma MoveReads(init: seq<Value>, h: seq<Serial.Txn<Value>>, n: nat, e: Entry)
    requires Serial.ReadsAgree(init, h) && n < |h| && h[n].got == Gets(e.gets) && IsMove(e)
    ensures forall i :: 0 <= i < 2 ==>
              e.gets[i].key < |init| && Serial.ExecTo(init, h, n)[e.gets[i].key] == e.gets[i].val
  {
    GetsOfTwo(e.gets);
    assert e.gets[0].key in h[n].got && e.gets[1].key in h[n].got;
  }

  /** A transfer adds nothing, up to wrap-around. */
  lemma TransferGain(e: Entry, r: Request)
    requires IsTransfer(e, r)
    ensures IsMove(e) && Same(Gain(e), 0)
  {
    hide Decode, Plus;
    var f, u := Plus(e.gets[0].val, -r.diff), Plus(e.gets[1].val, r.diff);
    PlusAdds(e.gets[0].val, -r.diff);
    PlusAdds(e.gets[1].val, r.diff);
    var p :| Decode(f) == Decode(e.gets[0].val) - r.diff + p * WORD;
    var q :| Decode(u) == Decode(e.gets[1].val) + r.diff + q * WORD;
    assert e.puts[r.from] == f && e.puts[r.to] == u;
    assert Gain(e) == 0 + (p + q) * WORD;
  }

  lemma {:induction false} TransferGains(log: seq<Entry>)
    requires forall j :: 0 <= j < |log| && log[j].outcome.Done? ==> Same(Gain(log[j]), 0)
    ensures Same(Gains(log), 0)
  {
    if log == [] {
      assert Gains(log) == 0 + 0 * WORD;
    } else {
      var n := |log| - 1;
      TransferGains(log[..n]);
      var p :| Gains(log[..n]) == 0 + p * WORD;
      if log[n].outcome.Done? {
        var q :| Gain(log[n]) == 0 + q * WORD;
        assert Gains(log) == 0 + (p + q) * WORD;
      }
    }
  }

  /** The balance of account `k`, with what a commit is still about to install on it. */
  function Intended(s: State, k: nat): Value
    requires k < |s.sh.table| == |s.sh.meta|
  {
    var o := s.sh.meta[k].owner;
    if 0 <= o < |s.thr| && s.thr[o].pc.Install? && k in Puts(s.thr[o].full) then Puts(s.thr[o].full)[k]
    else s.sh.table[k].val
  }

  function Intentions(s: State): (r: seq<Value>)
    requires |s.sh.meta| == |s.sh.table|
    ensures |r| == |s.sh.table|
  {
    seq(|s.sh.table|, k requires 0 <= k < |s.sh.table| => Intended(s, k))
  }

  lemma IntendedIsSerial(s: State, k: nat)
    requires Inv(s) && k < |s.sh.table|
    ensures var h := Commits(s.sh.log); Serial.ExecTo(Values(s.sh.init), h, |h|)[k] == Intended(s, k)
  {
    hide Less, Ver, Puts, LagInv;
    var sh, o := s.sh, s.sh.meta[k].owner;
    assert RecordInv(sh, k);
    if Settled(s, k) {
      TableIsSerial(s, k);
    } else {
      var l := s.thr[o];
      OwnerInstalls(s, o, k);
      assert LastCommit(sh.log, |sh.log|, k, l.entry) by {
        forall j | 0 <= j < |sh.log| && l.entry < j && k in sh.log[j].puts ensures !sh.log[j].outcome.Done? {
          assert LiveInv(sh.meta, sh.log, j, k);
        }
      }
      ExecCommits(Values(sh.init), sh.log, k, l.entry);
    }
  }

  lemma OwnerInstalls(s: State, o: nat, k: nat)
    requires Inv(s) && k < |s.sh.table| && o < |s.thr| && s.sh.meta[k].owner == o && s.thr[o].pc.Install?
    ensures var l := s.thr[o];
            && 0 <= l.entry < |s.sh.log| && s.sh.log[l.entry].outcome.Done?
            && k in s.sh.log[l.entry].puts && k in Puts(l.full) && s.sh.log[l.entry].puts[k] == Puts(l.full)[k]
            && s.sh.meta[k].src < l.entry
            && (forall j :: 0 <= j < |s.sh.log| && s.sh.log[j].thread == o ==> j <= l.entry)
  {
    hide Less, Ver, Puts, LagInv, RecordInv, LogInv, LiveInv, OrdersInv;
    var l := s.thr[o];
    assert LocalInv(s.sh, o, l);
    var j :| Lo(l.pc) <= j < Hi(l.pc, |l.wset|) && j < |l.wset| && l.wset[j].key == k;
    SiloCommit.PutsOfFull(l.wset, l.full);
    assert s.sh.meta[l.wset[j].key].src < l.entry;
  }

  lemma IntentionsAreSerial(s0: State, s: State)
    requires Reachable(s0, s) && |s.sh.meta| == |s.sh.table|
    ensures var h := Commits(s.sh.log);
            && Serial.ReadsAgree(Values(s0.sh.table), h)
            && Intentions(s) == Serial.ExecTo(Values(s0.sh.table), h, |h|)
  {
    hide Inv, Reachable;
    ReachableInv(s0, s);
    SiloSerializable(s0, s);
    var init, h := Values(s0.sh.table), Commits(s.sh.log);
    forall k | 0 <= k < |s.sh.table| ensures Intentions(s)[k] == Serial.ExecTo(init, h, |h|)[k] {
      IntendedIsSerial(s, k);
    }
  }

  /** Money is conserved at every step of every run in which every committed transaction is a transfer: the total of
      all balances, counting what running commits are still about to install, is the initial total (modulo 2^32). */
  lemma MoneyConserved(s0: State, s: State)
    requires Reachable(s0, s) && |s.sh.meta| == |s.sh.table|
    requires Balances(Values(s0.sh.table)) && OnlyTransfers(s.sh.log)
    ensures Same(Total(Intentions(s)), Total(Values(s0.sh.table)))
  {
    hide Inv, Reachable, IsTransfer, IsMove, Gain, Gains, Total, Intentions;
    IntentionsAreSerial(s0, s);
    forall j | 0 <= j < |s.sh.log| && s.sh.log[j].outcome.Done?
      ensures IsMove(s.sh.log[j]) && Same(Gain(s.sh.log[j]), 0)
    {
      var r :| IsTransfer(s.sh.log[j], r);
      TransferGain(s.sh.log[j], r);
    }
    SerialGains(Values(s0.sh.table), s.sh.log);
    TransferGains(s.sh.log);
    var p :| Gains(s.sh.log) == 0 + p * WORD;
    assert Total(Intentions(s)) == Total(Values(s0.sh.table)) + p * WORD;
  }
}
