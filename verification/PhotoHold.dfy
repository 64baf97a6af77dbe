/** The stage relay without its final photo hold: the tail is shortened and every PC-relative load
    that reached past it is repaired. */
module PhotoHold {
  import opened Words
  import opened LittleEndian

  const BODY_BYTES: nat := 0x390
  const RESULT_BYTES: nat := 0x388
  const TAIL: nat := 0x312
  const MASK: nat := 0x32e
  const POOL: nat := 0x330
  const PAUSE: nat := 0x38c

  // The only places where a displacement may have to change.

  function EarlySites(): seq<nat> { [0x25c, 0x25e, 0x268, 0x26e, 0x270, 0x272, 0x27c, 0x27e] }

  function MiddleSites(): seq<nat> { [0x28c, 0x2a0, 0x2a6, 0x2b4, 0x2ba, 0x2c2, 0x2ce, 0x2d6] }

  function LateSites(): seq<nat> { [0x2e6, 0x2ec, 0x2f2, 0x2f8, 0x2fe, 0x304, 0x30a, 0x310] }

  function Rewritten(): seq<nat> { EarlySites() + MiddleSites() + LateSites() }

  type Body = b: seq<Byte> | |b| == BODY_BYTES witness seq(BODY_BYTES, _ => 0)

  function LineThenPause(): seq<Byte> { [0x0b, 0x48, 0x09, 0x00, 0x1d, 0xd1, 0x78, 0xe4] }

  function Epilogue(): seq<Byte> {
    [0x08, 0x7f, 0x26, 0x4f, 0xf6, 0x6e, 0xf6, 0x6d, 0xf6, 0x6c,
     0xf6, 0x6b, 0xf6, 0x6a, 0xf6, 0x69, 0x2b, 0x41, 0xf6, 0x68]
  }

  predicate Recognised(body: seq<Byte>) {
    && |body| == BODY_BYTES
    && body[TAIL..0x31a] == LineThenPause() && body[0x31a..MASK] == Epilogue() && body[MASK..POOL] == [0x00, 0x10]
  }

  /** Save the line target, restore as before, jump to it; the literals move down. */
  function Spliced(body: Body): (r: seq<Byte>)
    ensures |r| == RESULT_BYTES
  {
    body[..TAIL] + [0x83, 0x60] + body[0x31a..0x32a] + [0x2b, 0x40] + body[0x32c..POOL] + [0x09, 0x00]
      + body[POOL..PAUSE]
  }

  /** Where each byte of the result came from. */
  lemma SplicedAt(body: Body, i: nat)
    requires i < RESULT_BYTES
    ensures i < TAIL ==> Spliced(body)[i] == body[i]
    ensures 0x314 <= i < 0x324 ==> Spliced(body)[i] == body[i + 6]
    ensures 0x326 <= i < 0x32a ==> Spliced(body)[i] == body[i + 6]
    ensures 0x32c <= i ==> Spliced(body)[i] == body[i + 4]
    ensures Spliced(body)[0x312] == 0x83 && Spliced(body)[0x313] == 0x60 && Spliced(body)[0x324] == 0x2b
      && Spliced(body)[0x325] == 0x40
  {
  }

  // ---------- the repaired loads ----------

  /** The halfwords that are looked at: all code before the tail, without the first literal pool. */
  predicate Scanned(at: int) { at % 2 == 0 && (0 <= at < 0x19e || 0x254 <= at < TAIL) }

  predicate LongLoad(half: int) { half / 0x1000 == 13 }

  predicate HalfLoad(half: int) { half / 0x1000 == 9 }

  function LongTarget(at: int, half: int): int { (at + 4) / 4 * 4 + 4 * (half % 0x100) }

  function HalfTarget(at: int, half: int): int { at + 4 + 2 * (half % 0x100) }

  /** How far back the displacement at `at` has to go. */
  function Repair(body: Body, at: nat): (d: nat)
    ensures d in {0, 1, 3}
  {
    if !Scanned(at) then 0
    else
      var half := HalfAt(body, at);
      if LongLoad(half) then (if POOL <= LongTarget(at, half) < PAUSE then 1 else 0)
      else if HalfLoad(half) && HalfTarget(at, half) == MASK then 3
      else 0
  }

  function Sites(body: Body, at: nat, end: nat): seq<nat>
    decreases end - at
  {
    if at >= end then [] else (if Repair(body, at) > 0 then [at] else []) + Sites(body, at + 2, end)
  }

  /** A repair never borrows from the opcode's upper byte. */
  lemma RepairFits(body: Body, at: nat)
    requires Scanned(at)
    ensures Repair(body, at) <= body[at]
    ensures (HalfAt(body, at) - Repair(body, at)) % 0x100 == body[at] - Repair(body, at)
    ensures (HalfAt(body, at) - Repair(body, at)) / 0x100 == body[at + 1]
  {
    assert HalfAt(body, at) % 0x100 == body[at];
  }

  /** `now` is `was` with the repairs of the halfwords from `begin` up to `at`. */
  ghost predicate Repaired(body: Body, was: seq<Byte>, now: seq<Byte>, begin: nat, at: nat) {
    && |was| == |now| == RESULT_BYTES
    && forall i :: 0 <= i < RESULT_BYTES ==> now[i] == was[i] - (if begin <= i < at then Repair(body, i) else 0)
  }

  lemma RepairedStep(body: Body, was: seq<Byte>, now: seq<Byte>, after: seq<Byte>, begin: nat, at: nat)
    requires Repaired(body, was, now, begin, at) && begin <= at && at % 2 == 0 && at + 2 <= TAIL && Scanned(at)
    requires was[at] == body[at] && was[at + 1] == body[at + 1]
    requires Repair(body, at) == 0 ==> after == now
    requires Repair(body, at) > 0 ==> |after| == |now| && after[at] == (HalfAt(body, at) - Repair(body, at)) % 0x100
    requires Repair(body, at) > 0 ==> after[at + 1] == (HalfAt(body, at) - Repair(body, at)) / 0x100
    requires Repair(body, at) > 0 ==> after[..at] == now[..at] && after[at + 2..] == now[at + 2..]
    ensures Repaired(body, was, after, begin, at + 2)
  {
    hide Repair, HalfAt, Scanned;
    RepairFits(body, at);
    OddUnscanned(body, at + 1);
    forall i | 0 <= i < RESULT_BYTES ensures after[i] == was[i] - (if begin <= i < at + 2 then Repair(body, i) else 0) {
      if i < at { assert after[..at][i] == now[..at][i]; }
      if at + 2 <= i { assert after[at + 2..][i - at - 2] == now[at + 2..][i - at - 2]; }
    }
  }

  lemma RepairBytes(body: Body, at: nat)
    requires Scanned(at)
    ensures var half := HalfAt(body, at) - Repair(body, at); 0 <= half % 0x100 < 0x100 && 0 <= half / 0x100 < 0x100
  {
    hide Repair, HalfAt;
    RepairFits(body, at);
  }

  /** The loop over one range of code, patching the result in place. */
  method PatchRange(result: array<Byte>, body: Body, begin: nat, end: nat) returns (changed: seq<nat>)
    requires result.Length == RESULT_BYTES && begin % 2 == end % 2 == 0 && begin <= end <= TAIL
    requires (forall at :: begin <= at < end && at % 2 == 0 ==> Scanned(at))
    requires forall i :: begin <= i < end ==> result[i] == body[i]
    modifies result
    ensures changed == Sites(body, begin, end)
    ensures Repaired(body, old(result[..]), result[..], begin, end)
  {
    hide Repair, HalfAt, Repaired, Scanned, Sites;
    changed := [];
    var at := begin;
    ghost var was: seq<Byte> := result[..];
    assert Repaired(body, was, was, begin, begin) by { NothingRepaired(body, was, begin); }
    while at < end
      invariant begin <= at <= end && at % 2 == 0
      invariant Sites(body, begin, end) == changed + Sites(body, at, end)
      invariant Repaired(body, was, result[..], begin, at)
    {
      var half, repair := HalfAt(body, at), Repair(body, at);
      RepairBytes(body, at);
      ghost var now: seq<Byte> := result[..];
      SitesStep(body, at, end, changed);
      if repair > 0 {
        PutHalf(result, at, half - repair);
        changed := changed + [at];
      }
      RepairedStep(body, was, now, result[..], begin, at);
      at := at + 2;
    }
    SitesStep(body, at, end, changed);
  }

  lemma SitesStep(body: Body, at: nat, end: nat, changed: seq<nat>)
    ensures at >= end ==> changed + Sites(body, at, end) == changed
    ensures at < end ==>
      changed + Sites(body, at, end) ==
        (if Repair(body, at) > 0 then changed + [at] else changed) + Sites(body, at + 2, end)
  {
    hide Repair;
  }

  method PutHalf(result: array<Byte>, at: nat, half: int)
    requires at + 2 <= result.Length && 0 <= half % 0x100 < 0x100 && 0 <= half / 0x100 < 0x100
    modifies result
    ensures result[at] == half % 0x100 && result[at + 1] == half / 0x100
    ensures result[..][..at] == old(result[..])[..at] && result[..][at + 2..] == old(result[..])[at + 2..]
  {
    result[at] := half % 0x100;
    result[at + 1] := half / 0x100;
  }

  lemma NothingRepaired(body: Body, was: seq<Byte>, begin: nat)
    requires |was| == RESULT_BYTES
    ensures Repaired(body, was, was, begin, begin)
  {
  }

  lemma OddUnscanned(body: Body, at: nat)
    requires at % 2 == 1
    ensures Repair(body, at) == 0
  {
  }

  /** The whole transformation: what is accepted, and every byte of what comes out. */
  method WithoutPhoto(body: seq<Byte>) returns (r: Option<seq<Byte>>)
    ensures r.Some? <==> Recognised(body) && Sites(body, 0, 0x19e) + Sites(body, 0x254, TAIL) == Rewritten()
    ensures r.Some? ==> Removed(body, r.value)
  {
    hide Repair, Sites, Spliced;
    if !Recognised(body) { return None; }
    var spliced := Spliced(body);
    var result := new Byte[RESULT_BYTES](i requires 0 <= i < RESULT_BYTES => spliced[i]);
    forall i | 0 <= i < TAIL ensures result[i] == body[i] { SplicedAt(body, i); }
    var first := PatchRange(result, body, 0, 0x19e);
    var second := PatchRange(result, body, 0x254, TAIL);
    if first + second != Rewritten() { return None; }
    forall i | 0 <= i < RESULT_BYTES ensures result[i] == spliced[i] - Repair(body, i) {
      if !(i < 0x19e || 0x254 <= i < TAIL) { Unscanned(body, i); }
    }
    r := Some(result[..]);
  }

  lemma Unscanned(body: Body, at: nat)
    requires !Scanned(at)
    ensures Repair(body, at) == 0
  {
  }

  /** The result, byte by byte. */
  ghost predicate Removed(body: seq<Byte>, r: seq<Byte>) {
    && Recognised(body) && |r| == RESULT_BYTES
    && forall i :: 0 <= i < RESULT_BYTES ==> r[i] == Spliced(body)[i] - Repair(body, i)
  }

  lemma RemovedAt(body: seq<Byte>, r: seq<Byte>, i: nat)
    requires Removed(body, r) && i < RESULT_BYTES && !Scanned(i)
    ensures r[i] == Spliced(body)[i]
  {
    hide Spliced;
    Unscanned(body, i);
  }

  /** A repaired load keeps its opcode and register, and its literal: the same word for MOV.L, the same
      halfword for MOV.W. */
  lemma RepairedLoad(body: seq<Byte>, r: seq<Byte>, at: nat)
    requires Removed(body, r) && Scanned(at) && Repair(body, at) > 0
    ensures var was, now := HalfAt(body, at), HalfAt(r, at);
      && now / 0x100 == was / 0x100
      && (LongLoad(was) ==>
        LongTarget(at, now) + 4 <= |r| && WordAt(r, LongTarget(at, now)) == WordAt(body, LongTarget(at, was)))
      && (HalfLoad(was) ==>
        HalfTarget(at, now) + 2 <= |r| && HalfAt(r, HalfTarget(at, now)) == HalfAt(body, HalfTarget(at, was)))
  {
    hide Spliced;
    RepairedOpcode(body, r, at);
    var was := HalfAt(body, at);
    if LongLoad(was) {
      PoolWord(body, r, LongTarget(at, was));
    } else {
      MaskHalf(body, r);
    }
  }

  lemma RepairedOpcode(body: seq<Byte>, r: seq<Byte>, at: nat)
    requires Removed(body, r) && Scanned(at)
    ensures HalfAt(r, at) == HalfAt(body, at) - Repair(body, at) && HalfAt(r, at) / 0x100 == HalfAt(body, at) / 0x100
    ensures HalfAt(r, at) % 0x100 == HalfAt(body, at) % 0x100 - Repair(body, at)
  {
    hide Spliced, Repair;
    SplicedAt(body, at);
    SplicedAt(body, at + 1);
    RepairFits(body, at);
    RemovedAt(body, r, at + 1);
  }

  /** A word of the moved pool is the word four bytes on. */
  lemma PoolWord(body: seq<Byte>, r: seq<Byte>, at: nat)
    requires Removed(body, r) && POOL <= at && at + 4 <= PAUSE
    ensures WordAt(r, at - 4) == WordAt(body, at)
  {
    hide Spliced;
    forall i | at - 4 <= i < at ensures r[i] == body[i + 4] {
      SplicedAt(body, i);
      RemovedAt(body, r, i);
    }
    assert r[at - 4] == body[at - 4 + 4] && r[at - 3] == body[at - 3 + 4] && r[at - 2] == body[at - 2 + 4]
      && r[at - 1] == body[at - 1 + 4];
  }

  lemma MaskHalf(body: seq<Byte>, r: seq<Byte>)
    requires Removed(body, r)
    ensures HalfAt(r, MASK - 6) == HalfAt(body, MASK)
  {
    hide Spliced;
    SplicedAt(body, MASK - 6);
    SplicedAt(body, MASK - 5);
    RemovedAt(body, r, MASK - 6);
    RemovedAt(body, r, MASK - 5);
  }

  /** A word of the first pool is where it was. */
  lemma FirstPoolWord(body: seq<Byte>, r: seq<Byte>, at: nat)
    requires Removed(body, r) && 0x19e <= at && at + 4 <= 0x254
    ensures WordAt(r, at) == WordAt(body, at)
  {
    hide Spliced;
    forall i | at <= i < at + 4 ensures r[i] == body[i] {
      SplicedAt(body, i);
      RemovedAt(body, r, i);
    }
  }

  // ---------- relocation offsets ----------

  function StageOffset(offset: nat, hold: bool): nat { if hold || offset < POOL then offset else offset - 4 }

  /** A literal of either pool that survives. */
  predicate Literal(offset: nat) { (0x19e <= offset && offset + 4 <= 0x254) || (POOL <= offset && offset + 4 <= PAUSE) }

  /** A mapped relocation offset names the same word, and no two literals share one. */
  lemma MappedOffset(body: seq<Byte>, r: seq<Byte>, offset: nat, other: nat)
    requires Removed(body, r) && Literal(offset) && Literal(other)
    ensures StageOffset(offset, false) + 4 <= |r| && WordAt(r, StageOffset(offset, false)) == WordAt(body, offset)
    ensures StageOffset(offset, false) == StageOffset(other, false) ==> offset == other
  {
    hide Removed, WordAt;
    RemovedSize(body, r);
    if offset < POOL { FirstPoolWord(body, r, offset); } else { PoolWord(body, r, offset); }
  }

  lemma RemovedSize(body: seq<Byte>, r: seq<Byte>)
    requires Removed(body, r)
    ensures |body| == BODY_BYTES && |r| == RESULT_BYTES
  {
  }

  // ---------- which loads still read the same ----------

  /** A stretch before the tail that no repair touches is where it was. */
  lemma CodeByteKept(body: seq<Byte>, r: seq<Byte>, i: nat)
    requires Removed(body, r) && i < TAIL
    ensures r[i] == body[i] - Repair(body, i)
  {
    hide Spliced, Repair;
    SplicedAt(body, i);
  }

  /** The bytes of the old and the new tail. */
  lemma TailBytes(body: seq<Byte>, r: seq<Byte>)
    requires Removed(body, r)
    ensures |body| == BODY_BYTES && |r| == RESULT_BYTES && body[TAIL..POOL] == OldTail() && r[TAIL..0x32c] == NewTail()
  {
    hide Repair;
    var tail := body[0x31a..MASK];
    assert body[TAIL..POOL] == body[TAIL..0x31a] + tail + body[MASK..POOL];
    forall i | TAIL <= i < 0x32c ensures r[i] == Spliced(body)[i] { RemovedAt(body, r, i); }
    assert body[0x31a..0x32a] == tail[..16] && body[0x32c..POOL] == [0xf6, 0x68, 0x00, 0x10] by {
      assert body[0x32c] == tail[18] && body[0x32d] == tail[19];
      assert body[MASK] == body[MASK..POOL][0] && body[MASK + 1] == body[MASK..POOL][1];
    }
    assert Spliced(body)[TAIL..0x32c] ==
      [0x83, 0x60] + body[0x31a..0x32a] + [0x2b, 0x40] + body[0x32c..POOL] + [0x09, 0x00];
    assert r[TAIL..0x32c] == Spliced(body)[TAIL..0x32c];
  }

  function OldTail(): seq<Byte> { LineThenPause() + Epilogue() + [0x00, 0x10] }

  function NewTail(): seq<Byte> {
    [0x83, 0x60] + Epilogue()[..16] + [0x2b, 0x40, 0xf6, 0x68, 0x00, 0x10, 0x09, 0x00]
  }

  /** The halfwords of the tail all move, so none is still where it was. */
  lemma TailDiffers(k: nat)
    requires k % 2 == 0 && k < 26
    ensures |OldTail()| == 30 && |NewTail()| == 26
    ensures OldTail()[k] != NewTail()[k] || OldTail()[k + 1] != NewTail()[k + 1]
  {
    match k
    case 0 => case 2 => case 4 => case 6 => case 8 => case 10 => case 12 =>
    case 14 => case 16 => case 18 => case 20 => case 22 => case 24 =>
  }

  lemma TailHalves(body: seq<Byte>, r: seq<Byte>, at: nat)
    requires Removed(body, r) && TAIL <= at < 0x32c && at % 2 == 0
    ensures HalfAt(r, at) != HalfAt(body, at)
  {
    hide Removed, OldTail, NewTail;
    RemovedSize(body, r);
    TailBytes(body, r);
    var k := at - TAIL;
    TailDiffers(k);
    assert body[TAIL..POOL][k] == body[at] && body[TAIL..POOL][k + 1] == body[at + 1];
    assert r[TAIL..0x32c][k] == r[at] && r[TAIL..0x32c][k + 1] == r[at + 1];
  }

  /** A halfword of the moved pool is the one four bytes on. */
  lemma PoolHalf(body: seq<Byte>, r: seq<Byte>, at: nat)
    requires Removed(body, r) && 0x32c <= at && at + 2 <= RESULT_BYTES
    ensures HalfAt(r, at) == HalfAt(body, at + 4)
  {
    hide Spliced;
    SplicedAt(body, at);
    SplicedAt(body, at + 1);
    RemovedAt(body, r, at);
    RemovedAt(body, r, at + 1);
  }

  lemma CodeHalf(body: seq<Byte>, r: seq<Byte>, at: nat)
    requires Removed(body, r) && at + 2 <= TAIL && at % 2 == 0
    ensures HalfAt(r, at) == HalfAt(body, at) <==> Repair(body, at) == 0
  {
    hide Spliced, Repair;
    CodeByteKept(body, r, at);
    CodeByteKept(body, r, at + 1);
    OddUnscanned(body, at + 1);
  }

  /** The halfwords that a load left as it was still finds: code that is not itself repaired, and moved
      halfwords that happen to equal the ones four bytes on. */
  predicate HalfStays(body: Body, at: nat)
    requires at + 2 <= BODY_BYTES
  {
    if at + 2 <= TAIL then Repair(body, at) == 0
    else 0x32c <= at && at + 2 <= RESULT_BYTES && HalfAt(body, at + 4) == HalfAt(body, at)
  }

  lemma HalfStaysExactly(body: seq<Byte>, r: seq<Byte>, at: nat)
    requires Removed(body, r) && at % 2 == 0 && at + 2 <= BODY_BYTES
    ensures at + 2 <= |r| && HalfAt(r, at) == HalfAt(body, at) <==> HalfStays(body, at)
  {
    hide Spliced, Repair, HalfAt;
    if at + 2 <= TAIL { CodeHalf(body, r, at); }
    else if at < 0x32c { TailHalves(body, r, at); }
    else if at + 2 <= RESULT_BYTES { PoolHalf(body, r, at); }
  }

  /** Which halfwords a scanned MOV.W may name and still read the same afterwards. */
  predicate HalfLoadSurvives(body: Body, target: nat)
    requires target + 2 <= BODY_BYTES
  {
    target == MASK || HalfStays(body, target)
  }

  /** Exactly those, for every scanned MOV.W that reads inside the body. */
  lemma HalfLoadKept(body: seq<Byte>, r: seq<Byte>, at: nat)
    requires Removed(body, r) && Scanned(at) && HalfLoad(HalfAt(body, at))
    requires HalfTarget(at, HalfAt(body, at)) + 2 <= BODY_BYTES
    ensures var was, now := HalfTarget(at, HalfAt(body, at)), HalfTarget(at, HalfAt(r, at));
      (now + 2 <= |r| && HalfAt(r, now) == HalfAt(body, was)) <==> HalfLoadSurvives(body, was)
  {
    hide Spliced, HalfStays;
    RepairedOpcode(body, r, at);
    var was := HalfTarget(at, HalfAt(body, at));
    if was == MASK { RepairedLoad(body, r, at); } else { HalfStaysExactly(body, r, was); }
  }

  /** Which words a scanned MOV.L may name and still read the same afterwards. */
  predicate LongLoadSurvives(body: Body, target: nat)
    requires target + 4 <= BODY_BYTES
  {
    POOL <= target < PAUSE || (target < POOL && HalfStays(body, target) && HalfStays(body, target + 2))
  }

  /** Exactly those, for every scanned MOV.L that reads inside the body: the moved pool without the pause,
      code that is not itself repaired, and chance. */
  lemma LongLoadKept(body: seq<Byte>, r: seq<Byte>, at: nat)
    requires Removed(body, r) && Scanned(at) && LongLoad(HalfAt(body, at))
    requires LongTarget(at, HalfAt(body, at)) + 4 <= BODY_BYTES
    ensures var was, now := LongTarget(at, HalfAt(body, at)), LongTarget(at, HalfAt(r, at));
      (now + 4 <= |r| && WordAt(r, now) == WordAt(body, was)) <==> LongLoadSurvives(body, was)
  {
    hide Spliced, HalfStays, WordAt, HalfAt, Removed;
    RemovedSize(body, r);
    RepairedOpcode(body, r, at);
    RepairValue(body, at);
    var was := LongTarget(at, HalfAt(body, at));
    if POOL <= was < PAUSE {
      RepairedLoad(body, r, at);
    } else if was < POOL {
      HalfStaysExactly(body, r, was);
      HalfStaysExactly(body, r, was + 2);
      WordHalves(r, body, was);
    }
  }

  lemma RepairValue(body: Body, at: nat)
    requires Scanned(at) && LongLoad(HalfAt(body, at))
    ensures Repair(body, at) == if POOL <= LongTarget(at, HalfAt(body, at)) < PAUSE then 1 else 0
  {
  }

  lemma WordHalves(a: seq<Byte>, b: seq<Byte>, at: nat)
    requires at + 4 <= |a| && at + 4 <= |b|
    ensures WordAt(a, at) == WordAt(b, at) <==> HalfAt(a, at) == HalfAt(b, at) && HalfAt(a, at + 2) == HalfAt(b, at + 2)
  {
  }

  /** Both literal pools survive for MOV.L; of the rest of the moved bytes only the pause was a literal. */
  lemma LiteralsSurvive(body: Body, target: nat)
    requires Literal(target)
    ensures LongLoadSurvives(body, target) && !LongLoadSurvives(body, PAUSE)
  {
    Unscanned(body, target);
    Unscanned(body, target + 2);
  }

  // ---------- a load that is lost ----------

  /** The listed sites, as a test. */
  predicate Site(i: int) {
    || i == 0x25c || i == 0x25e || i == 0x268 || i == 0x26e || i == 0x270 || i == 0x272
    || i == 0x27c || i == 0x27e || i == 0x28c || i == 0x2a0 || i == 0x2a6 || i == 0x2b4
    || i == 0x2ba || i == 0x2c2 || i == 0x2ce || i == 0x2d6 || i == 0x2e6 || i == 0x2ec
    || i == 0x2f2 || i == 0x2f8 || i == 0x2fe || i == 0x304 || i == 0x30a || i == 0x310
  }

  /** A body whose every listed site loads the first pool word, and whose first halfword after the inline
      pool loads a halfword of the moved pool. */
  function ExampleByte(i: nat): Byte {
    if Site(i) then (POOL - (i + 4) / 4 * 4) / 4 % 256
    else if Site(i - 1) then 0xd0
    else if i == 0x254 then 0x74
    else if i == 0x255 then 0x90
    else if TAIL <= i < 0x31a then LineThenPause()[i - TAIL]
    else if 0x31a <= i < MASK then Epilogue()[i - 0x31a]
    else if i == MASK + 1 then 0x10
    else if i == 0x340 then 1
    else 0
  }

  function Example(): (b: Body)
    ensures forall i :: 0 <= i < BODY_BYTES ==> b[i] == ExampleByte(i)
  {
    seq<Byte>(BODY_BYTES, i requires 0 <= i < BODY_BYTES => ExampleByte(i))
  }

  lemma OddNoSite(at: int)
    requires at % 2 == 0
    ensures !Site(at + 1) && !Site(at - 1) && !Site(0x254)
  {
  }

  lemma ExampleHalf(at: nat)
    requires at % 2 == 0 && at < TAIL
    ensures HalfAt(Example(), at) ==
      if Site(at) then 0xd000 + (POOL - (at + 4) / 4 * 4) / 4 else if at == 0x254 then 0x9074 else 0
  {
    hide Example, Site;
    var b := Example();
    assert b[at] == ExampleByte(at) && b[at + 1] == ExampleByte(at + 1);
    OddNoSite(at);
    if Site(at) { SiteRange(at); }
  }

  lemma ExampleRepairs(at: nat)
    requires Scanned(at)
    ensures Repair(Example(), at) == if Site(at) then 1 else 0
  {
    hide Example, HalfAt, Site;
    ExampleHalf(at);
    if Site(at) { SiteRange(at); }
  }

  lemma SiteRange(i: int)
    requires Site(i)
    ensures i % 2 == 0 && 0x25c <= i <= 0x310
  {
  }

  /** No site up to `end`. */
  lemma {:induction false} NoSite(at: nat, end: nat)
    requires at % 2 == 0 && end <= TAIL && (at >= 0x254 || end <= 0x19e) && forall i :: at <= i < end ==> !Site(i)
    ensures Sites(Example(), at, end) == []
    decreases end - at
  {
    hide Repair, Example;
    if at < end {
      ExampleRepairs(at);
      NoSite(at + 2, end);
    }
  }

  /** The next site from `at` on is `next`. */
  lemma {:induction false} NextSite(at: nat, next: nat)
    requires at % 2 == next % 2 == 0 && 0x254 <= at <= next < TAIL && Site(next)
    requires forall i :: at <= i < next ==> !Site(i)
    ensures Sites(Example(), at, TAIL) == [next] + Sites(Example(), next + 2, TAIL)
    decreases next - at
  {
    hide Repair, Example;
    ExampleRepairs(at);
    if at < next { NextSite(at + 2, next); }
  }

  /** The next four sites from `at` on. */
  lemma FourSites(at: nat, a: nat, b: nat, c: nat, d: nat)
    requires at % 2 == 0 && 0x254 <= at <= a < b < c < d < TAIL && Site(a) && Site(b) && Site(c) && Site(d)
    requires forall i :: at <= i <= d && Site(i) ==> i == a || i == b || i == c || i == d
    ensures Sites(Example(), at, TAIL) == [a, b, c, d] + Sites(Example(), d + 2, TAIL)
  {
    hide Sites, Example, Site;
    SiteRange(a); SiteRange(b); SiteRange(c); SiteRange(d);
    NextSite(at, a);
    NextSite(a + 2, b);
    NextSite(b + 2, c);
    NextSite(c + 2, d);
  }

  lemma FindsEarly()
    ensures Sites(Example(), 0x254, TAIL) == EarlySites() + Sites(Example(), 0x280, TAIL)
  {
    hide Sites, Example;
    FourSites(0x254, 0x25c, 0x25e, 0x268, 0x26e);
    FourSites(0x270, 0x270, 0x272, 0x27c, 0x27e);
  }

  lemma FindsMiddle()
    ensures Sites(Example(), 0x280, TAIL) == MiddleSites() + Sites(Example(), 0x2d8, TAIL)
  {
    hide Sites, Example;
    FourSites(0x280, 0x28c, 0x2a0, 0x2a6, 0x2b4);
    FourSites(0x2b6, 0x2ba, 0x2c2, 0x2ce, 0x2d6);
  }

  lemma FindsLate()
    ensures Sites(Example(), 0x2d8, TAIL) == LateSites() + Sites(Example(), TAIL, TAIL)
  {
    hide Sites, Example;
    FourSites(0x2d8, 0x2e6, 0x2ec, 0x2f2, 0x2f8);
    FourSites(0x2fa, 0x2fe, 0x304, 0x30a, 0x310);
  }

  lemma ExampleSites()
    ensures Sites(Example(), 0, 0x19e) + Sites(Example(), 0x254, TAIL) == Rewritten()
  {
    hide Sites, Example, Site;
    NoSite(0, 0x19e) by { SitesLate(); }
    NoSite(TAIL, TAIL);
    FindsEarly();
    FindsMiddle();
    FindsLate();
    hide EarlySites, MiddleSites, LateSites;
    var e, m, l := EarlySites(), MiddleSites(), LateSites();
    assert [] + (e + (m + (l + []))) == e + m + l;
  }

  lemma SitesLate()
    ensures forall i :: Site(i) ==> i >= 0x25c
  {
  }

  /** The body is accepted, but its MOV.W at 0x254 is left as it was and reads another halfword afterwards. */
  lemma LostHalfLoad(r: seq<Byte>)
    requires Removed(Example(), r)
    ensures Recognised(Example()) && Sites(Example(), 0, 0x19e) + Sites(Example(), 0x254, TAIL) == Rewritten()
    ensures HalfLoad(HalfAt(Example(), 0x254)) && HalfTarget(0x254, HalfAt(Example(), 0x254)) == 0x340
    ensures HalfAt(r, 0x254) == HalfAt(Example(), 0x254) && HalfAt(r, 0x340) != HalfAt(Example(), 0x340)
  {
    hide Sites, Spliced, Removed, Example, Repair;
    RemovedSize(Example(), r);
    ExampleRecognised();
    ExampleSites();
    ExampleHalf(0x254);
    ExampleRepairs(0x254);
    CodeHalf(Example(), r, 0x254);
    PoolHalf(Example(), r, 0x340);
    assert Example()[0x340] == ExampleByte(0x340) && Example()[0x344] == ExampleByte(0x344);
  }

  lemma ExampleRecognised()
    ensures Recognised(Example())
  {
    hide Example;
    var b := Example();
    forall i | TAIL <= i < 0x31a ensures b[i] == LineThenPause()[i - TAIL] { assert b[i] == ExampleByte(i); }
    forall i | 0x31a <= i < MASK ensures b[i] == Epilogue()[i - 0x31a] { assert b[i] == ExampleByte(i); }
    assert b[TAIL..0x31a] == LineThenPause();
    assert b[0x31a..MASK] == Epilogue();
    assert b[MASK] == ExampleByte(MASK) && b[MASK + 1] == ExampleByte(MASK + 1);
    assert b[MASK..POOL] == [0x00, 0x10];
  }
}
