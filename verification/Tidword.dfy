/// The 64-bit TID word of a Silo record and the choice of a commit TID.

module Tidwords {

  const TID_LIMIT := 0x2000_0000
  const EPOCH_LIMIT := 0x1_0000_0000

  type TidField = n: int | 0 <= n < TID_LIMIT
  type EpochField = n: int | 0 <= n < EPOCH_LIMIT

  /** The bit fields of the word, from the least significant one up. */
  datatype Tidword = Tidword(lock: bool, latest: bool, absent: bool, tid: TidField, epoch: EpochField)

  const ZERO := Tidword(false, false, false, 0, 0)

  function Bit(b: bool): int { if b then 1 else 0 }

  /** The flag bits below the tid field. */
  function Flags(w: Tidword): int { Bit(w.lock) + 2 * Bit(w.latest) + 4 * Bit(w.absent) }

  /** The (epoch, tid) pair as one number: the version that a word stands for. */
  function Ver(w: Tidword): int { w.epoch * TID_LIMIT + w.tid }

  /** The whole word read as an unsigned 64-bit integer. */
  function Obj(w: Tidword): int { w.epoch * EPOCH_LIMIT + w.tid * 8 + Flags(w) }

  /** The word held in a 64-bit integer: one bit, one bit, one bit, 29 bits and 32 bits, from the low end. */
  function FromObj(n: int): Tidword
    requires 0 <= n < EPOCH_LIMIT * EPOCH_LIMIT
  {
    var a := n / 2;
    var b := a / 2;
    var c := b / 2;
    Tidword(n % 2 == 1, a % 2 == 1, b % 2 == 1, c % TID_LIMIT, c / TID_LIMIT)
  }

  lemma FromObjObj(w: Tidword)
    ensures 0 <= Obj(w) < EPOCH_LIMIT * EPOCH_LIMIT
    ensures FromObj(Obj(w)) == w
  {
    var c := Ver(w);
    var b := 2 * c + Bit(w.absent);
    var a := 2 * b + Bit(w.latest);
    assert Obj(w) == 2 * a + Bit(w.lock);
    assert Obj(w) / 2 == a && a / 2 == b && b / 2 == c;
    FieldsOfVer(w.epoch, w.tid);
  }

  lemma FieldsOfVer(epoch: EpochField, tid: TidField)
    ensures (epoch * TID_LIMIT + tid) / TID_LIMIT == epoch
    ensures (epoch * TID_LIMIT + tid) % TID_LIMIT == tid
  {
  }

  lemma ObjFromObj(n: int)
    requires 0 <= n < EPOCH_LIMIT * EPOCH_LIMIT
    ensures Obj(FromObj(n)) == n
  {
    var a := n / 2;
    var b := a / 2;
    var c := b / 2;
    assert n == 2 * a + Bit(n % 2 == 1);
    assert a == 2 * b + Bit(a % 2 == 1);
    assert b == 2 * c + Bit(b % 2 == 1);
  }

  /** `operator<`: the comparison of the whole words. */
  predicate Less(a: Tidword, b: Tidword) { Obj(a) < Obj(b) }

  /** Comparing whole words compares versions first and flag bits only between equal versions. */
  lemma LessIsLexicographic(a: Tidword, b: Tidword)
    ensures Less(a, b) <==> Ver(a) < Ver(b) || (Ver(a) == Ver(b) && Flags(a) < Flags(b))
    ensures Ver(a) < Ver(b) <==> a.epoch < b.epoch || (a.epoch == b.epoch && a.tid < b.tid)
    ensures Ver(a) == Ver(b) <==> a.epoch == b.epoch && a.tid == b.tid
  {
    assert Obj(a) == 8 * Ver(a) + Flags(a) && Obj(b) == 8 * Ver(b) + Flags(b);
  }

  /** `std::max` of two words. */
  function Max(a: Tidword, b: Tidword): (m: Tidword)
    ensures m == a || m == b
    ensures Ver(a) <= Ver(m) && Ver(b) <= Ver(m)
  {
    if Less(a, b) then b else a
  }

  /** `tid++` on the 29-bit field: it wraps without a carry into the epoch. */
  function Bump(w: Tidword): Tidword { w.(tid := (w.tid + 1) % TID_LIMIT) }

  /** The word stored by a commit: cases (a), (b) and (c) of `writePhase`. */
  function CommitWord(maxw: Tidword, maxr: Tidword, mrctid: Tidword, epoch: EpochField): Tidword {
    var a := Bump(Max(maxw, maxr));
    var b := Bump(mrctid);
    var c := ZERO.(epoch := epoch);
    Max(Max(a, b), c).(lock := false, latest := true)
  }

  /** A version that has a successor within its epoch, or lies in an earlier epoch. */
  predicate HasRoom(w: Tidword, epoch: EpochField) { w.epoch < epoch || w.tid + 1 < TID_LIMIT }

  /** The running maximum over the words of a read set or a write set, from the zero word of `begin`. */
  function MaxOf(ws: seq<Tidword>): Tidword {
    if ws == [] then ZERO else Max(MaxOf(ws[..|ws| - 1]), ws[|ws| - 1])
  }

  lemma MaxOfAppend(ws: seq<Tidword>, w: Tidword)
    ensures MaxOf(ws + [w]) == Max(MaxOf(ws), w)
  {
    assert (ws + [w])[..|ws|] == ws;
  }

  lemma {:induction false} MaxOfIsMaximum(ws: seq<Tidword>)
    ensures forall w :: w in ws ==> Ver(w) <= Ver(MaxOf(ws))
    ensures MaxOf(ws) == ZERO || MaxOf(ws) in ws
  {
    if ws != [] {
      var init, last := ws[..|ws| - 1], ws[|ws| - 1];
      MaxOfIsMaximum(init);
      var m := Max(MaxOf(init), last);
      assert MaxOf(ws) == m;
      forall w | w in ws ensures Ver(w) <= Ver(m) {
        assert w in init || w == last;
      }
    }
  }

  /** The version that `CommitWord` computes, in terms of versions only. */
  lemma CommitWordVersion(maxw: Tidword, maxr: Tidword, mrctid: Tidword, epoch: EpochField)
    requires maxw.epoch <= epoch && maxr.epoch <= epoch && mrctid.epoch <= epoch
    ensures var c := CommitWord(maxw, maxr, mrctid, epoch);
            var m := Max(maxw, maxr);
            var a := if m.epoch == epoch then Bump(m).tid else 0;
            var b := if mrctid.epoch == epoch then Bump(mrctid).tid else 0;
            c.epoch == epoch && c.tid == (if a < b then b else a) && !c.lock && c.latest
  {
    var a, b, c := Bump(Max(maxw, maxr)), Bump(mrctid), ZERO.(epoch := epoch);
    LessIsLexicographic(a, b);
    LessIsLexicographic(Max(a, b), c);
  }

  /** Over any running maxima: the word exceeds all three inputs exactly when no counter wraps within
      the loaded epoch, and then nothing smaller in that epoch does. */
  lemma CommitWordOverMaxima(maxw: Tidword, maxr: Tidword, mrctid: Tidword, epoch: EpochField)
    requires maxw.epoch <= epoch && maxr.epoch <= epoch && mrctid.epoch <= epoch
    ensures var c := CommitWord(maxw, maxr, mrctid, epoch);
            && c.epoch == epoch && !c.lock && c.latest
            && (c.absent ==> maxw.absent || maxr.absent || mrctid.absent)
            && (Ver(maxw) < Ver(c) && Ver(maxr) < Ver(c) && Ver(mrctid) < Ver(c)
                <==> HasRoom(maxw, epoch) && HasRoom(maxr, epoch) && HasRoom(mrctid, epoch))
            && (forall v: Tidword ::
                  v.epoch == epoch && Ver(maxw) < Ver(v) && Ver(maxr) < Ver(v) && Ver(mrctid) < Ver(v)
                  ==> Ver(c) <= Ver(v))
  {
    var c, m := CommitWord(maxw, maxr, mrctid, epoch), Max(maxw, maxr);
    CommitWordVersion(maxw, maxr, mrctid, epoch);
    assert Ver(m) == if Ver(maxw) < Ver(maxr) then Ver(maxr) else Ver(maxw) by {
      LessIsLexicographic(maxw, maxr);
    }
    RoomIsSuccessor(m, mrctid, c, epoch);
    LessIsLexicographic(maxw, maxr);
  }

  /** The same with the running maximum of both sets as one word. */
  lemma RoomIsSuccessor(m: Tidword, mrctid: Tidword, c: Tidword, epoch: EpochField)
    requires m.epoch <= epoch && mrctid.epoch <= epoch && c.epoch == epoch
    requires var a := if m.epoch == epoch then Bump(m).tid else 0;
             var b := if mrctid.epoch == epoch then Bump(mrctid).tid else 0;
             c.tid == if a < b then b else a
    ensures Ver(m) < Ver(c) && Ver(mrctid) < Ver(c) <==> HasRoom(m, epoch) && HasRoom(mrctid, epoch)
    ensures forall v: Tidword :: v.epoch == epoch && Ver(m) < Ver(v) && Ver(mrctid) < Ver(v) ==> Ver(c) <= Ver(v)
  {
  }

  /** A worker whose last commit used the last tid of the current epoch cannot choose a larger one:
      the field wraps to zero and the new word is smaller than the old. */
  lemma CommitWordWraps()
    ensures var last := Tidword(false, true, false, TID_LIMIT - 1, 7);
            Ver(CommitWord(ZERO, ZERO, last, 7)) < Ver(last)
  {
  }

  /** `w` is in epoch `epoch` and above every TID read, every TID overwritten and the worker's previous TID. */
  ghost predicate ValidTid(w: Tidword, over: seq<Tidword>, seen: seq<Tidword>, mrctid: Tidword, epoch: EpochField) {
    && w.epoch == epoch
    && (forall x :: x in over ==> Ver(x) < Ver(w))
    && (forall x :: x in seen ==> Ver(x) < Ver(w))
    && Ver(mrctid) < Ver(w)
  }

  lemma ValidTidByMaxima(w: Tidword, over: seq<Tidword>, seen: seq<Tidword>, mrctid: Tidword, epoch: EpochField)
    ensures ValidTid(w, over, seen, mrctid, epoch) <==>
            w.epoch == epoch && Ver(MaxOf(over)) < Ver(w) && Ver(MaxOf(seen)) < Ver(w) && Ver(mrctid) < Ver(w)
  {
    MaxOfIsMaximum(over);
    MaxOfIsMaximum(seen);
    assert 0 <= Ver(mrctid) && Ver(ZERO) == 0;
  }

  /** The commit TID of `writePhase` over whole read and write sets: with `seen` the validated words and
      `over` the words the locks were taken on, the choice is in the loaded epoch and above every TID read,
      every TID overwritten and the worker's previous TID if and only if no counter at its last value sits
      in the loaded epoch; and then it is the least such TID, whatever the flag bits of those words are. */
  lemma CommitTidIsLeast(over: seq<Tidword>, seen: seq<Tidword>, mrctid: Tidword, epoch: EpochField)
    requires MaxOf(over).epoch <= epoch && MaxOf(seen).epoch <= epoch && mrctid.epoch <= epoch
    ensures var c := CommitWord(MaxOf(over), MaxOf(seen), mrctid, epoch);
            && (ValidTid(c, over, seen, mrctid, epoch) <==>
                HasRoom(MaxOf(over), epoch) && HasRoom(MaxOf(seen), epoch) && HasRoom(mrctid, epoch))
            && (forall v: Tidword | ValidTid(v, over, seen, mrctid, epoch) :: Ver(c) <= Ver(v))
  {
    var c := CommitWord(MaxOf(over), MaxOf(seen), mrctid, epoch);
    CommitWordOverMaxima(MaxOf(over), MaxOf(seen), mrctid, epoch);
    ValidTidByMaxima(c, over, seen, mrctid, epoch);
    forall v: Tidword | ValidTid(v, over, seen, mrctid, epoch) ensures Ver(c) <= Ver(v) {
      ValidTidByMaxima(v, over, seen, mrctid, epoch);
    }
  }
}
