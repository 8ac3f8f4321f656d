/// Serial execution of a sequence of transactions: the reference that both engines are compared with.

module Serial {

  /** What a transaction read and wrote, by key. */
  datatype Txn<V> = Txn(got: map<nat, V>, put: map<nat, V>)

  /** The table after installing a set of writes. */
  function Install<V>(db: seq<V>, writes: map<nat, V>): (r: seq<V>)
    ensures |r| == |db|
  {
    seq(|db|, k requires 0 <= k < |db| => if k in writes then writes[k] else db[k])
  }

  /** The table after the first `n` transactions of `h`, executed one at a time. */
  function ExecTo<V>(init: seq<V>, h: seq<Txn<V>>, n: nat): (r: seq<V>)
    requires n <= |h|
    ensures |r| == |init|
  {
    if n == 0 then init else Install(ExecTo(init, h, n - 1), h[n - 1].put)
  }

  /** Every read of every transaction returns what serial execution puts there. */
  ghost predicate ReadsAgree<V(!new)>(init: seq<V>, h: seq<Txn<V>>) {
    forall i, k :: 0 <= i < |h| && k in h[i].got ==>
      k < |init| && h[i].got[k] == ExecTo(init, h, i)[k]
  }

  /** Execution depends only on the transactions executed. */
  lemma {:induction false} ExecPrefix<V>(init: seq<V>, h: seq<Txn<V>>, h': seq<Txn<V>>, n: nat)
    requires n <= |h| <= |h'| && h == h'[..|h|]
    ensures ExecTo(init, h, n) == ExecTo(init, h', n)
  {
    if n > 0 {
      ExecPrefix(init, h, h', n - 1);
      assert h[n - 1] == h'[n - 1];
    }
  }

  ghost predicate SameOn<V(!new)>(h: Txn<V>, h': Txn<V>, k: nat) {
    (k in h.put <==> k in h'.put) && (k in h.put ==> h.put[k] == h'.put[k])
  }

  /** What is left on a key depends only on what is written to that key. */
  lemma {:induction false} ExecOnKey<V(!new)>(init: seq<V>, h: seq<Txn<V>>, h': seq<Txn<V>>, n: nat, k: nat)
    requires n <= |h| && n <= |h'| && k < |init|
    requires forall j :: 0 <= j < n ==> SameOn(h[j], h'[j], k)
    ensures ExecTo(init, h, n)[k] == ExecTo(init, h', n)[k]
  {
    if n > 0 {
      ExecOnKey(init, h, h', n - 1, k);
      assert SameOn(h[n - 1], h'[n - 1], k);
    }
  }

  /** Transactions that do not write a key leave it alone. */
  lemma {:induction false} NoWriters<V(!new)>(init: seq<V>, h: seq<Txn<V>>, m: nat, n: nat, k: nat)
    requires m <= n <= |h| && k < |init| && forall j :: m <= j < n ==> k !in h[j].put
    ensures ExecTo(init, h, n)[k] == ExecTo(init, h, m)[k]
  {
    if m < n {
      NoWriters(init, h, m, n - 1, k);
    }
  }

  /** A transaction program: what it writes, given what it reads. */
  type Program<!V> = map<nat, V> -> map<nat, V>

  /** What a program that reads the keys of `asked` finds in `db`. */
  function Look<V>(db: seq<V>, asked: map<nat, V>): map<nat, V> {
    map k | k in asked && k < |db| :: db[k]
  }

  /** The table after running the first `n` programs one at a time, nothing interleaved. */
  function RunTo<V>(init: seq<V>, progs: seq<Program<V>>, h: seq<Txn<V>>, n: nat): (r: seq<V>)
    requires n <= |h| == |progs|
    ensures |r| == |init|
  {
    if n == 0 then init
    else
      var db := RunTo(init, progs, h, n - 1);
      Install(db, progs[n - 1](Look(db, h[n - 1].got)))
  }

  /** Re-running the programs serially reproduces the recorded history, for any update functions. */
  lemma {:induction false} ProgramsReplay<V(!new)>(init: seq<V>, progs: seq<Program<V>>, h: seq<Txn<V>>, n: nat)
    requires n <= |h| == |progs|
    requires ReadsAgree(init, h)
    requires forall i :: 0 <= i < |h| ==> progs[i](h[i].got) == h[i].put
    ensures RunTo(init, progs, h, n) == ExecTo(init, h, n)
    ensures n < |h| ==> Look(RunTo(init, progs, h, n), h[n].got) == h[n].got
  {
    if n > 0 {
      ProgramsReplay(init, progs, h, n - 1);
    }
  }
}
