/** Turns of the dispatch loop, and what a run of them comes to. */
module ColdTurns {
  import opened Words
  import opened Opcodes
  import opened ColdCpu
  import opened ScanBlocks
  import opened ColdWatch
  import opened ColdRun

  const RETURN: nat := 0xdead_beee

  type Hash = seq<Byte> -> seq<Byte>

  /** Watched byte stores from `at` on; None as soon as one is refused. */
  function StoreBytes(env: Profile, c: Core, byAllocator: bool, at: int, bytes: seq<Byte>): Option<Core>
    decreases |bytes|
  {
    if bytes == [] then Some(c)
    else match Write(env, c, byAllocator, at, bytes[0], 1)
      case None => None
      case Some(next) => StoreBytes(env, next, byAllocator, at + 1, bytes[1..])
  }

  /** The state with the hash of the finished context stored at r5, and the leaf returned from. */
  ghost predicate Digests(prog: Program, sha256: Hash, s: Machine, after: Machine) {
    var noted := Note(prog, s.pc, s.core);
    && noted.Some? && noted.value.r[4] in noted.value.book.hashes
    && var bytes := sha256(noted.value.book.hashes[noted.value.r[4]]);
       var stored := StoreBytes(prog.env, noted.value, InAllocator(prog.env, s.pc), noted.value.r[5], bytes);
       stored.Some? && after == Returned(s, Digested(stored.value))
  }

  /** One turn: a whole digest leaf, or a move. */
  ghost predicate Turns(prog: Program, sha256: Hash, s: Machine, after: Machine) {
    s.pc != RETURN && if s.pc == prog.digest then Digests(prog, sha256, s, after) else Moves(prog, s, after)
  }

  /** Consecutive turns. */
  ghost predicate Path(prog: Program, sha256: Hash, p: seq<Machine>) {
    |p| > 0 && forall i {:trigger p[i]} :: 0 <= i < |p| - 1 ==> Turns(prog, sha256, p[i], p[i + 1])
  }

  // ---------- endings ----------

  /** At the return address with SP, r8-r14 and all of SR but T as they were. */
  predicate Intact(start: Machine, s: Machine) {
    s.core.r[8..] == start.core.r[8..] && s.core.sr / 2 == start.core.sr / 2
  }

  ghost predicate Reports(prog: Program, s: Machine) {
    s.pc != RETURN && s.pc == prog.report && Note(prog, s.pc, s.core).Some?
  }

  ghost predicate Stuck(prog: Program, sha256: Hash, s: Machine) {
    s.pc != RETURN && !Reports(prog, s) && forall after :: !Turns(prog, sha256, s, after)
  }

  datatype Reason = NoMove | Lost | Bound

  datatype Verdict = Installed | Refused | Rejected(reason: Reason)

  /** A path from the start shows this verdict within so many turns. */
  ghost predicate Shows(prog: Program, sha256: Hash, start: Machine, bound: nat, verdict: Verdict, p: seq<Machine>) {
    && Path(prog, sha256, p) && p[0] == start
    && var last := p[|p| - 1];
       match verdict
       case Installed => |p| <= bound && last.pc == RETURN && Intact(start, last)
       case Refused => |p| <= bound && Reports(prog, last)
       case Rejected(Lost) => |p| <= bound && last.pc == RETURN && !Intact(start, last)
       case Rejected(NoMove) => |p| <= bound && Stuck(prog, sha256, last)
       case Rejected(Bound) => |p| == bound + 1
  }

  // ---------- one verdict for every run ----------

  /** The digest leaf is none of the other recognised entry points. */
  predicate Plainly(prog: Program) {
    && prog.digest !in {prog.prepare, prog.estimate, prog.publish, prog.allocate, prog.env.allocator, prog.env.releaser}
    && prog.digest !in {prog.passive, prog.report, prog.display, prog.hashInit, prog.hashUpdate}
  }

  lemma OneTurn(prog: Program, sha256: Hash, s: Machine, a: Machine, b: Machine)
    requires Turns(prog, sha256, s, a) && Turns(prog, sha256, s, b)
    ensures a == b
  {
    hide Note, Step, AbiReturn, StoreBytes;
  }

  lemma {:induction false} OnePath(prog: Program, sha256: Hash, p: seq<Machine>, q: seq<Machine>, i: nat)
    requires Path(prog, sha256, p) && Path(prog, sha256, q) && p[0] == q[0] && i < |p| && i < |q|
    ensures p[i] == q[i]
    decreases i
  {
    hide Turns;
    if i > 0 {
      OnePath(prog, sha256, p, q, i - 1);
      assert Turns(prog, sha256, p[i - 1], p[i - 1 + 1]) && Turns(prog, sha256, q[i - 1], q[i - 1 + 1]);
      OneTurn(prog, sha256, p[i - 1], p[i], q[i]);
    }
  }

  ghost predicate Final(prog: Program, sha256: Hash, s: Machine) { forall after :: !Turns(prog, sha256, s, after) }

  lemma EndingsAreFinal(prog: Program, sha256: Hash, s: Machine)
    requires Plainly(prog) && (s.pc == RETURN || Reports(prog, s) || Stuck(prog, sha256, s))
    ensures Final(prog, sha256, s)
  {
    hide Note, Step, AbiReturn;
  }

  lemma PathTurns(prog: Program, sha256: Hash, p: seq<Machine>, i: nat)
    requires Path(prog, sha256, p) && i + 1 < |p|
    ensures Turns(prog, sha256, p[i], p[i + 1])
  {
    hide Turns;
  }

  /** A path stops at the first final state. */
  lemma FinalEnds(prog: Program, sha256: Hash, p: seq<Machine>, q: seq<Machine>)
    requires Path(prog, sha256, p) && Path(prog, sha256, q) && p[0] == q[0]
    requires Final(prog, sha256, p[|p| - 1])
    ensures |q| <= |p|
  {
    hide Turns;
    if |q| > |p| {
      OnePath(prog, sha256, p, q, |p| - 1);
      PathTurns(prog, sha256, q, |p| - 1);
    }
  }

  /** No run shows two verdicts. */
  lemma OneVerdict(prog: Program, sha256: Hash, start: Machine, bound: nat, v: Verdict, p: seq<Machine>, w: Verdict,
    q: seq<Machine>)
    requires Plainly(prog) && Shows(prog, sha256, start, bound, v, p) && Shows(prog, sha256, start, bound, w, q)
    ensures v == w
  {
    hide Path, Turns, Final, Intact, Reports, Stuck;
    ShownFinal(prog, sha256, start, bound, v, p);
    ShownFinal(prog, sha256, start, bound, w, q);
    if v != Rejected(Bound) { FinalEnds(prog, sha256, p, q); }
    if w != Rejected(Bound) { FinalEnds(prog, sha256, q, p); }
    if v != Rejected(Bound) && w != Rejected(Bound) {
      OnePath(prog, sha256, p, q, |p| - 1);
      OneEnding(prog, sha256, start, p[|p| - 1]);
    }
  }

  lemma OneEnding(prog: Program, sha256: Hash, start: Machine, s: Machine)
    ensures !(s.pc == RETURN && Reports(prog, s)) && !(s.pc == RETURN && Stuck(prog, sha256, s))
    ensures !(Reports(prog, s) && Stuck(prog, sha256, s))
  {
  }

  lemma ShownFinal(prog: Program, sha256: Hash, start: Machine, bound: nat, v: Verdict, p: seq<Machine>)
    requires Plainly(prog) && Shows(prog, sha256, start, bound, v, p)
    ensures |p| > 0 && (v != Rejected(Bound) ==> Final(prog, sha256, p[|p| - 1]) && |p| <= bound)
  {
    hide Turns, Final, Intact;
    if v != Rejected(Bound) { EndingsAreFinal(prog, sha256, p[|p| - 1]); }
  }

  // ---------- what the digest leaf leaves ----------

  lemma NextPlace(a: int)
    requires InRam(a, 1) && InRam(a + 1, 1)
    ensures Physical(a + 1) == Physical(a) + 1
  {
    hide Wrap, Physical;
    PhysicalIsMod(a);
    PhysicalIsMod(a + 1);
  }

  lemma WriteByte(env: Profile, c: Core, byAllocator: bool, at: int, value: Byte)
    requires Write(env, c, byAllocator, at, value, 1).Some?
    ensures var after := Write(env, c, byAllocator, at, value, 1).value;
      && InRam(at, 1) && after.mem == c.mem[Physical(at) := value]
      && after.r == c.r && after.book == c.book && after.pr == c.pr
  {
    hide Physical, Read, InRam;
  }

  predicate Stands(c: Core, at: int, bytes: seq<Byte>, i: nat)
    requires i < |bytes|
  {
    InRam(at + i, 1) && Physical(at + i) == Physical(at) + i && ByteAt(c.mem, Physical(at) + i) == bytes[i]
  }

  /** The bytes stand one behind the other, and no other byte changes. */
  lemma {:induction false} BytesStored(env: Profile, c: Core, byAllocator: bool, at: int, bytes: seq<Byte>)
    requires StoreBytes(env, c, byAllocator, at, bytes).Some?
    ensures var after := StoreBytes(env, c, byAllocator, at, bytes).value;
      && (forall i :: 0 <= i < |bytes| ==> Stands(after, at, bytes, i))
      && (forall a :: !(Physical(at) <= a < Physical(at) + |bytes|) ==> ByteAt(after.mem, a) == ByteAt(c.mem, a))
      && after.r == c.r && after.book == c.book && after.pr == c.pr
    decreases |bytes|
  {
    hide Write, InRam, Physical;
    if bytes != [] {
      WriteByte(env, c, byAllocator, at, bytes[0]);
      var next := Write(env, c, byAllocator, at, bytes[0], 1).value;
      BytesStored(env, next, byAllocator, at + 1, bytes[1..]);
      var after := StoreBytes(env, c, byAllocator, at, bytes).value;
      if |bytes| > 1 {
        assert Stands(after, at + 1, bytes[1..], 0);
        NextPlace(at);
      }
      forall i | 0 <= i < |bytes| ensures Stands(after, at, bytes, i) {
        if i > 0 { StandsFurther(after, at, bytes, i); }
      }
    }
  }

  lemma StandsFurther(c: Core, at: int, bytes: seq<Byte>, i: nat)
    requires 0 < i < |bytes| && Stands(c, at + 1, bytes[1..], i - 1) && Physical(at + 1) == Physical(at) + 1
    ensures Stands(c, at, bytes, i)
  {
    hide InRam, Physical, ByteAt;
    assert at + 1 + (i - 1) == at + i;
  }

  /** After a digest turn the hash of the context stands at the destination, and everything else as before. */
  lemma DigestLeaves(prog: Program, sha256: Hash, s: Machine, after: Machine)
    requires Plainly(prog) && s.pc == prog.digest && Turns(prog, sha256, s, after)
    ensures s.core.r[4] in s.core.book.hashes && after.pc == s.core.pr
    ensures var at, bytes := Physical(s.core.r[5]), sha256(s.core.book.hashes[s.core.r[4]]);
      && (forall i :: 0 <= i < |bytes| ==> ByteAt(after.core.mem, at + i) == bytes[i])
      && (forall a :: !(at <= a < at + |bytes|) ==> ByteAt(after.core.mem, a) == ByteAt(s.core.mem, a))
    ensures after.core.book.hashes == s.core.book.hashes - {s.core.r[4]}
  {
    hide StoreBytes, Physical, InRam, ByteAt, Note, Wrap;
    DigestNoted(prog, s.core);
    var bytes := sha256(s.core.book.hashes[s.core.r[4]]);
    BytesStored(prog.env, s.core, InAllocator(prog.env, s.pc), s.core.r[5], bytes);
    var stored := StoreBytes(prog.env, s.core, InAllocator(prog.env, s.pc), s.core.r[5], bytes).value;
    forall i | 0 <= i < |bytes| ensures ByteAt(stored.mem, Physical(s.core.r[5]) + i) == bytes[i] {
      assert Stands(stored, s.core.r[5], bytes, i);
    }
  }

  lemma DigestNoted(prog: Program, c: Core)
    requires Plainly(prog)
    ensures Note(prog, prog.digest, c) ==
      if c.r[4] in c.book.hashes && |c.book.hashes[c.r[4]]| == prog.codeBytes then Some(c) else None
  {
    hide Plan, HelperCalled, Handed, ColdText;
  }
}
