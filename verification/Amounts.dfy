/// Account balances as 32-bit little-endian integers, and transfers between accounts.

module Amounts {
  import opened Silo
  import Serial

  const WORD := 0x1_0000_0000

  /** The `int32_t` that shares its storage with four bytes, modulo 2^32. */
  function Decode(v: Value): (n: int)
    requires |v| == 4
    ensures 0 <= n < WORD
  {
    var a: int, b: int, c: int, d: int := v[0], v[1], v[2], v[3];
    a + 256 * (b + 256 * (c + 256 * d))
  }

  function Encode(n: int): (v: Value)
    requires 0 <= n < WORD
    ensures |v| == 4
  {
    [n % 256, n / 256 % 256, n / 256 / 256 % 256, n / 256 / 256 / 256]
  }

  lemma DecodeEncode(n: int)
    requires 0 <= n < WORD
    ensures Decode(Encode(n)) == n
  {
    var a := n / 256;
    var b := a / 256;
    assert n == 256 * a + n % 256 && a == 256 * b + a % 256 && b == 256 * (b / 256) + b % 256;
  }

  lemma EncodeDecode(v: Value)
    requires |v| == 4
    ensures Encode(Decode(v)) == v
  {
    var v0: int, v1: int, v2: int, v3: int := v[0], v[1], v[2], v[3];
    var c := v2 + 256 * v3;
    var b := v1 + 256 * c;
    assert (v0 + 256 * b) / 256 == b && b / 256 == c && c / 256 == v3;
  }

  /** `amount += d`, with the wrap-around of the machine. */
  function Plus(v: Value, d: int): (r: Value)
    requires |v| == 4
    ensures |r| == 4 && Decode(r) == (Decode(v) + d) % WORD
  {
    DecodeEncode((Decode(v) + d) % WORD);
    Encode((Decode(v) + d) % WORD)
  }

  datatype Request = Request(from: nat, to: nat, diff: int)

  /** Silo's key swap: the lower key first, and the amount negated with it. */
  function Normalise(r: Request): Request {
    if r.from > r.to then Request(r.to, r.from, -r.diff) else r
  }

  /** The swap without the negation, as the two-phase-locking engine does it. */
  function SwapKeys(r: Request): Request {
    if r.from > r.to then Request(r.to, r.from, r.diff) else r
  }

  /** What a request adds to the balance of account `k`. */
  function Effect(r: Request, k: nat): int {
    (if k == r.to then r.diff else 0) - (if k == r.from then r.diff else 0)
  }

  /** Swapping with negation keeps the effect of the request, and a retried request is not changed again. */
  lemma NormaliseKeepsEffect(r: Request, k: nat)
    ensures Effect(Normalise(r), k) == Effect(r, k)
    ensures Normalise(Normalise(r)) == Normalise(r)
    ensures r.from != r.to ==> Normalise(r).from < Normalise(r).to
  {
  }

  /** Swapping without negation keeps the effect exactly when nothing is swapped or nothing is moved. */
  lemma SwapKeepsEffectIff(r: Request)
    requires r.from != r.to
    ensures (forall k :: Effect(SwapKeys(r), k) == Effect(r, k)) <==> r.from < r.to || r.diff == 0
    ensures SwapKeys(SwapKeys(r)) == SwapKeys(r)
  {
    assert Effect(SwapKeys(r), r.to) == Effect(r, r.to) <==> r.from < r.to || r.diff == 0;
  }

  /** A request to move 5 from account 2 to account 1 moves 5 from account 1 to account 2. */
  lemma SwapReversesTransfer()
    ensures Effect(Request(2, 1, 5), 1) == 5 && Effect(SwapKeys(Request(2, 1, 5)), 1) == -5
  {
  }

  /** The transaction program of a transfer. */
  function Program(r: Request): Serial.Program<Value> {
    (got: map<nat, Value>) =>
      if r.from in got && r.to in got && |got[r.from]| == 4 && |got[r.to]| == 4
      then map[r.from := Plus(got[r.from], -r.diff), r.to := Plus(got[r.to], r.diff)]
      else map[]
  }

  // ----- values as C strings -----

  /** The bytes before the first zero byte: what a string view of a `char *` takes. With no zero byte the view runs
      past the value; the model stops at its end. */
  function CStr(v: Value): (r: Value)
    ensures |r| <= |v| && r == v[..|r|] && (|r| < |v| ==> v[|r|] == 0)
    ensures forall j :: 0 <= j < |r| ==> r[j] != 0
  {
    if v == [] || v[0] == 0 then [] else [v[0]] + CStr(v[1..])
  }

  /** The bytes that `write(key, v)` puts into a write set, where an empty view stands for the default value. */
  function Given(v: Value, dflt: Value): Value {
    if CStr(v) == [] then dflt else CStr(v)
  }

  /** What a record that held `was` holds after `write(key, v)` and the commit. */
  function Kept(was: Value, v: Value, dflt: Value): Value {
    Over(was, Given(v, dflt))
  }

  /** The default value or the bytes that the view leaves out happen to be right. */
  predicate Faithful(was: Value, v: Value, dflt: Value)
    requires |was| == |v| > 0
  {
    if v[0] == 0 then dflt == v else forall j :: |CStr(v)| <= j < |v| ==> was[j] == v[j]
  }

  /** The string view ends inside the value. Otherwise the code reads on behind it, and what it does then is not
      modelled: the view stops at the end of the value. */
  predicate Terminated(v: Value) {
    |CStr(v)| < |v|
  }

  /** A value is terminated exactly when one of its bytes is zero. One that is not is written whole by the model,
      whatever the record held. */
  lemma TerminatedIff(was: Value, v: Value, dflt: Value)
    requires |was| == |v| == |dflt| > 0
    ensures Terminated(v) <==> exists j :: 0 <= j < |v| && v[j] == 0
    ensures !Terminated(v) ==> Faithful(was, v, dflt) && Kept(was, v, dflt) == v
  {
    hide CStr, Kept, Given;
    var c := CStr(v);
    if |c| < |v| {
      assert v[|c|] == 0;
    } else {
      assert c == v;
    }
    KeptIff(was, v, dflt);
  }

  /** The balance -1 is not terminated. */
  lemma MinusOneIsNotTerminated()
    ensures Plus([0, 0, 0, 0], -1) == [255, 255, 255, 255] && !Terminated([255, 255, 255, 255])
  {
    hide CStr;
  }

  /** The value written is the value meant exactly when it starts with a zero byte and is the default value, or does not
      and agrees with the old value from its first zero byte on. */
  lemma KeptIff(was: Value, v: Value, dflt: Value)
    requires |was| == |v| == |dflt| > 0
    ensures |Kept(was, v, dflt)| == |v|
    ensures Kept(was, v, dflt) == v <==> Faithful(was, v, dflt)
  {
    hide CStr;
    var c, r := CStr(v), Kept(was, v, dflt);
    assert r[..|Given(v, dflt)|] == Given(v, dflt);
    if v[0] != 0 {
      assert v == v[..|c|] + v[|c|..] && r == c + was[|c|..];
      assert forall j :: |c| <= j < |v| ==> r[j] == was[j];
      if Faithful(was, v, dflt) {
        assert was[|c|..] == v[|c|..];
      }
    }
  }

  /** Thread 0 takes 97 away from a balance of 97: the new value starts with a zero byte, the default value "0" is
      written instead, and 48 is left. */
  lemma ZeroByteMakesMoney()
    ensures Plus([97, 0, 0, 0], -97) == [0, 0, 0, 0]
    ensures Decode(Kept([97, 0, 0, 0], [0, 0, 0, 0], [48, 0, 0, 0])) == 48
  {
    assert CStr([0, 0, 0, 0]) == [];
  }

  /** The log entry is that of `transferWork` for request `r`: it writes what the string views give. */
  ghost predicate Attempts(e: Entry, r: Request, dflt: Value) {
    && r.from != r.to && |e.gets| == 2
    && e.gets[0].key == r.from && e.gets[1].key == r.to && |e.gets[0].val| == 4 && |e.gets[1].val| == 4
    && e.writes == [WriteElement(r.from, Given(Plus(e.gets[0].val, -r.diff), dflt)),
                    WriteElement(r.to, Given(Plus(e.gets[1].val, r.diff), dflt))]
  }

  /** ... and what it leaves on both accounts. */
  ghost predicate Leaves(e: Entry, r: Request, dflt: Value)
    requires Attempts(e, r, dflt)
  {
    e.puts == map[r.from := Kept(e.gets[0].val, Plus(e.gets[0].val, -r.diff), dflt),
                  r.to := Kept(e.gets[1].val, Plus(e.gets[1].val, r.diff), dflt)]
  }

  /** The log entry is a committed transfer `r` over the balances it read. */
  ghost predicate IsTransfer(e: Entry, r: Request) {
    && e.outcome.Done? && r.from != r.to && |e.gets| == 2
    && e.gets[0].key == r.from && e.gets[1].key == r.to && |e.gets[0].val| == 4 && |e.gets[1].val| == 4
    && e.puts == map[r.from := Plus(e.gets[0].val, -r.diff), r.to := Plus(e.gets[1].val, r.diff)]
  }

  /** A committed `transferWork` is the transfer that was asked for exactly when both of its writes are faithful. */
  lemma TransferIff(e: Entry, r: Request, dflt: Value)
    requires e.outcome.Done? && |dflt| == 4 && Attempts(e, r, dflt) && Leaves(e, r, dflt)
    ensures IsTransfer(e, r) <==>
              Faithful(e.gets[0].val, Plus(e.gets[0].val, -r.diff), dflt)
              && Faithful(e.gets[1].val, Plus(e.gets[1].val, r.diff), dflt)
  {
    hide Faithful, Kept, Given, CStr, Plus;
    var v, u := Plus(e.gets[0].val, -r.diff), Plus(e.gets[1].val, r.diff);
    KeptIff(e.gets[0].val, v, dflt);
    KeptIff(e.gets[1].val, u, dflt);
    assert e.puts[r.from] == Kept(e.gets[0].val, v, dflt) && e.puts[r.to] == Kept(e.gets[1].val, u, dflt);
    if IsTransfer(e, r) {
      assert e.puts[r.from] == v && e.puts[r.to] == u;
    }
  }
}
