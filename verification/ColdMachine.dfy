/** The installer object: its fields change in place, one instruction or one leaf at a time. */
module ColdMachine {
  import opened Words
  import opened Opcodes
  import opened ColdCpu
  import opened ScanBlocks
  import opened ColdWatch
  import opened ColdRun
  import opened ColdTurns

  /** Consecutive moves. */
  ghost predicate Traced(prog: Program, trace: seq<Machine>) {
    |trace| > 0 && forall i {:trigger trace[i]} :: 0 <= i < |trace| - 1 ==> Moves(prog, trace[i], trace[i + 1])
  }

  /** A fresh installer's trace over a clear layout is a run, with all that is proved of runs. */
  lemma TracedIsRun(prog: Program, trace: seq<Machine>)
    requires Traced(prog, trace) && Fresh(trace[0].core)
    requires forall i {:trigger trace[i]} :: 0 <= i < |trace| - 1 ==> Cleared(prog, trace[i])
    ensures Run(prog, trace) && forall i :: 0 <= i < |trace| ==> |trace[i].core.reserveStores| <= 1
  {
    hide Moves, Layout, Note;
    forall i | 0 <= i < |trace| - 1
      ensures Note(prog, trace[i].pc, trace[i].core).Some?
        && Layout(prog.env, Note(prog, trace[i].pc, trace[i].core).value)
    {
      assert Cleared(prog, trace[i]);
      assert Moves(prog, trace[i], trace[i + 1]);
      MovesNoted(prog, trace[i], trace[i + 1]);
    }
    forall i | 0 <= i < |trace| ensures |trace[i].core.reserveStores| <= 1 { RunKept(prog, trace, i); }
  }

  ghost predicate Cleared(prog: Program, s: Machine) {
    var noted := Note(prog, s.pc, s.core);
    noted.Some? ==> Layout(prog.env, noted.value)
  }

  lemma TracedMore(prog: Program, trace: seq<Machine>, next: Machine)
    requires Traced(prog, trace) && Moves(prog, trace[|trace| - 1], next)
    ensures Traced(prog, trace + [next])
  {
    hide Moves;
    var longer := trace + [next];
    forall i | 0 <= i < |longer| - 1 ensures Moves(prog, longer[i], longer[i + 1]) {
      if i < |trace| - 1 { assert Moves(prog, trace[i], trace[i + 1]); }
    }
  }

  lemma StoreKept(env: Profile, c: Core, byAllocator: bool, address: int, value: nat, count: int)
    requires count in {1, 2, 4}
    ensures var after := Write(env, c, byAllocator, address, value, count);
      Kept(c) && Layout(env, c) ==>
        Lawful(env, c, c) && (after.Some? ==> Kept(after.value) && Lawful(env, c, after.value))
  {
    hide Write, Layout, Gather, Physical;
    if Kept(c) && Layout(env, c) {
      ComputeLawful(env, c, c);
      if Write(env, c, byAllocator, address, value, count).Some? {
        StoreLawful(env, c, byAllocator, address, value, count);
      }
    }
  }

  class Cold {
    const prog: Program
    var pc: nat
    var instructions: int
    var executed: set<int>
    var core: Core

    function State(): Machine
      reads this
    {
      Machine(pc, instructions, executed, core)
    }

    constructor (prog: Program, start: Machine)
      ensures this.prog == prog && State() == start
    {
      this.prog := prog;
      pc, instructions, executed, core := start.pc, start.instructions, start.executed, start.core;
    }

    /** One watched store: what the watch admits, and nothing that a run must not do. */
    method Store(address: int, value: nat, count: int) returns (ok: bool)
      requires count in {1, 2, 4}
      modifies this`core
      ensures ok <==> Write(prog.env, old(core), InAllocator(prog.env, pc), address, value, count).Some?
      ensures Kept(old(core)) && Layout(prog.env, old(core)) ==> Kept(core) && Lawful(prog.env, old(core), core)
      ensures Some(core) ==
        if ok then Write(prog.env, old(core), InAllocator(prog.env, pc), address, value, count) else Some(old(core))
    {
      hide Write, Kept, Lawful, Layout;
      var after := Write(prog.env, core, InAllocator(prog.env, pc), address, value, count);
      ok := after.Some?;
      StoreKept(prog.env, core, InAllocator(prog.env, pc), address, value, count);
      if ok { core := after.value; }
    }

    /** One instruction, or one branch with its slot. */
    method Dispatch() returns (ok: bool)
      modifies this
      ensures ok <==> Step(prog.env, old(State())).Some?
      ensures Some(State()) == if ok then Step(prog.env, old(State())) else Some(old(State()))
    {
      hide Step;
      var after := Step(prog.env, State());
      ok := after.Some?;
      if ok {
        pc, instructions, executed, core :=
          after.value.pc, after.value.instructions, after.value.executed, after.value.core;
      }
    }

    /** The digest leaf stores its bytes one by one, then returns like the others. */
    method Digest(bytes: seq<Byte>) returns (ok: bool, ghost trace: seq<Machine>)
      requires pc == prog.digest && Note(prog, pc, core) == Some(core) && Plainly(prog)
      modifies this`core, this`pc
      ensures |trace| > 0 && trace[0] == old(State()) && Traced(prog, trace)
      ensures var stored := StoreBytes(prog.env, old(core), InAllocator(prog.env, old(pc)), old(core).r[5], bytes);
        && (ok <==> stored.Some?)
        && (ok ==> State() == Returned(old(State()), Digested(stored.value)) == trace[|trace| - 1] && |trace| > 1)
    {
      hide Write, Moves, Traced, AbiReturn, Note;
      trace := [State()];
      ghost var first := State();
      OneTraced(prog, first);
      var at := core.r[5];
      assert bytes[0..] == bytes;
      for i := 0 to |bytes|
        invariant pc == prog.digest && State() == first.(core := core) && Note(prog, pc, core) == Some(core)
        invariant |trace| > 0 && Traced(prog, trace) && trace[0] == first && trace[|trace| - 1] == State()
        invariant core.pr == first.core.pr
        invariant StoreBytes(prog.env, core, InAllocator(prog.env, pc), at + i, bytes[i..]) ==
          StoreBytes(prog.env, first.core, InAllocator(prog.env, pc), at, bytes)
      {
        ghost var before := State();
        ok := Store(at + i, bytes[i], 1);
        if !ok { return; }
        DigestMoves(prog, before, State(), at + i, bytes[i]);
        TracedMore(prog, trace, State());
        trace := trace + [State()];
        assert bytes[i..][1..] == bytes[i + 1..];
      }
      ghost var before := State();
      AbiComputes(Digested(core), 0);
      core := AbiReturn(Digested(core), 0);
      pc := core.pr;
      DigestReturns(prog, before, State());
      TracedMore(prog, trace, State());
      trace := trace + [State()];
      ok := true;
    }

    /** The dispatch loop.  Its states are consecutive moves, so everything proved of runs holds of them.  Its
        verdict is the only one any path of turns from the start shows: it installs exactly when one reaches
        the return address within the bound with SP, r8-r14 and SR as they were, refuses exactly when one
        reaches the report, and rejects exactly for lost registers, a state without a turn, or the bound. */
    method RunCold(bound: nat, sha256: Hash) returns (verdict: Verdict, ghost trace: seq<Machine>,
      ghost path: seq<Machine>)
      requires Plainly(prog)
      modifies this
      ensures |trace| > 0 && trace[0] == old(State()) && Traced(prog, trace)
      ensures Shows(prog, sha256, old(State()), bound, verdict, path)
      ensures forall other, p {:trigger Shows(prog, sha256, old(State()), bound, other, p)} ::
        Shows(prog, sha256, old(State()), bound, other, p) ==> other == verdict
      ensures verdict == Installed ==> trace[|trace| - 1] == State() == path[|path| - 1] && pc == 0xdead_beee
    {
      ghost var first := State();
      verdict, trace, path := Loop(bound, sha256);
      forall other, p {:trigger Shows(prog, sha256, first, bound, other, p)} |
        Shows(prog, sha256, first, bound, other, p) ensures other == verdict
      {
        OneVerdict(prog, sha256, first, bound, verdict, path, other, p);
      }
    }

    method Loop(bound: nat, sha256: Hash) returns (verdict: Verdict, ghost trace: seq<Machine>,
      ghost path: seq<Machine>)
      requires Plainly(prog)
      modifies this
      ensures |trace| > 0 && trace[0] == old(State()) && Traced(prog, trace)
      ensures Shows(prog, sha256, old(State()), bound, verdict, path)
      ensures verdict == Installed ==> trace[|trace| - 1] == State() == path[|path| - 1]
    {
      hide Step, Note, Moves, Traced, AbiReturn, Path, Turns, Digests, StoreBytes;
      ghost var first := State();
      trace, path := [first], [first];
      var kept, mode := core.r[8..], core.sr / 2;
      OneTraced(prog, first);
      OnePathTo(prog, sha256, first);
      var steps := 0;
      while steps < bound
        invariant 0 <= steps <= bound && |path| == steps + 1
        invariant |trace| > 0 && Traced(prog, trace) && trace[0] == first && trace[|trace| - 1] == State()
        invariant Path(prog, sha256, path) && path[0] == first && path[|path| - 1] == State()
      {
        steps := steps + 1;
        if pc == RETURN {
          return if core.r[8..] == kept && core.sr / 2 == mode then Installed else Rejected(Lost), trace, path;
        }
        ghost var before := State();
        var noted := Note(prog, pc, core);
        if noted.None? {
          NoTurn(prog, sha256, before);
          return Rejected(NoMove), trace, path;
        }
        if pc == prog.report { return Refused, trace, path; }
        if pc == prog.digest {
          var ok: bool;
          ghost var more: seq<Machine>;
          DigestNoted(prog, core);
          ok, more := Digest(sha256(core.book.hashes[core.r[4]]));
          TracedJoin(prog, trace, more);
          trace := trace + more[1..];
          if !ok {
            NoDigest(prog, sha256, before);
            return Rejected(NoMove), trace, path;
          }
          DigestTurns(prog, sha256, before, State());
        } else {
          core := noted.value;
          if Quiet(prog, pc) {
            AbiComputes(core, 0);
            core := AbiReturn(core, 0);
            pc := core.pr;
            LeafMoves(prog, before, State());
          } else {
            var ok := Dispatch();
            if !ok {
              NoStep(prog, sha256, before);
              return Rejected(NoMove), trace, path;
            }
            StepMoves(prog, before, State());
          }
          MoveTurns(prog, sha256, before, State());
          TracedMore(prog, trace, State());
          trace := trace + [State()];
        }
        PathMore(prog, sha256, path, State());
        path := path + [State()];
      }
      verdict := Rejected(Bound);
    }
  }

  lemma OnePathTo(prog: Program, sha256: Hash, s: Machine)
    ensures Path(prog, sha256, [s])
  {
  }

  lemma PathMore(prog: Program, sha256: Hash, p: seq<Machine>, next: Machine)
    requires Path(prog, sha256, p) && Turns(prog, sha256, p[|p| - 1], next)
    ensures Path(prog, sha256, p + [next])
  {
    hide Turns;
    var longer := p + [next];
    forall i | 0 <= i < |longer| - 1 ensures Turns(prog, sha256, longer[i], longer[i + 1]) {
      if i < |p| - 1 { PathTurns(prog, sha256, p, i); }
    }
  }

  /** A refused entry is the end. */
  lemma NoTurn(prog: Program, sha256: Hash, s: Machine)
    requires s.pc != RETURN && Note(prog, s.pc, s.core).None?
    ensures Stuck(prog, sha256, s)
  {
    hide Note, Step, AbiReturn, StoreBytes;
  }

  lemma NoDigest(prog: Program, sha256: Hash, s: Machine)
    requires Plainly(prog) && s.pc != RETURN && s.pc == prog.digest && Note(prog, s.pc, s.core) == Some(s.core)
    requires s.core.r[4] in s.core.book.hashes && StoreBytes(prog.env, s.core, InAllocator(prog.env, s.pc),
      s.core.r[5], sha256(s.core.book.hashes[s.core.r[4]])).None?
    ensures Stuck(prog, sha256, s)
  {
    hide Note, Step, AbiReturn, StoreBytes;
  }

  lemma NoStep(prog: Program, sha256: Hash, s: Machine)
    requires s.pc !in {RETURN, prog.report, prog.digest} && !Quiet(prog, s.pc) && Note(prog, s.pc, s.core).Some?
    requires Step(prog.env, s.(core := Note(prog, s.pc, s.core).value)).None?
    ensures Stuck(prog, sha256, s)
  {
    hide Note, Step, AbiReturn, StoreBytes;
  }

  lemma DigestTurns(prog: Program, sha256: Hash, s: Machine, after: Machine)
    requires s.pc != RETURN && s.pc == prog.digest && Note(prog, s.pc, s.core) == Some(s.core)
    requires s.core.r[4] in s.core.book.hashes
    requires var stored := StoreBytes(prog.env, s.core, InAllocator(prog.env, s.pc), s.core.r[5],
        sha256(s.core.book.hashes[s.core.r[4]]));
      stored.Some? && after == Returned(s, Digested(stored.value))
    ensures Turns(prog, sha256, s, after)
  {
    hide Note, AbiReturn, StoreBytes;
  }

  lemma MoveTurns(prog: Program, sha256: Hash, s: Machine, after: Machine)
    requires s.pc !in {RETURN, prog.digest} && Moves(prog, s, after)
    ensures Turns(prog, sha256, s, after)
  {
    hide Moves;
  }

  lemma WriteKeeps(env: Profile, c: Core, byAllocator: bool, address: int, value: nat)
    requires Write(env, c, byAllocator, address, value, 1).Some?
    ensures var after := Write(env, c, byAllocator, address, value, 1).value;
      after.r == c.r && after.book == c.book && after.pr == c.pr
  {
    hide Physical, Read, InRam, Scatter;
  }

  lemma OneTraced(prog: Program, s: Machine)
    ensures Traced(prog, [s])
  {
  }

  lemma TracedJoin(prog: Program, trace: seq<Machine>, more: seq<Machine>)
    requires Traced(prog, trace) && Traced(prog, more) && trace[|trace| - 1] == more[0]
    ensures Traced(prog, trace + more[1..])
  {
    hide Moves;
    var all := trace + more[1..];
    forall i | 0 <= i < |all| - 1 ensures Moves(prog, all[i], all[i + 1]) {
      if i < |trace| - 1 { assert Moves(prog, trace[i], trace[i + 1]); }
      else { assert Moves(prog, more[i - |trace| + 1], more[i - |trace| + 2]); }
    }
  }

  lemma DigestMoves(prog: Program, s: Machine, after: Machine, address: int, value: Byte)
    requires Plainly(prog) && s.pc == prog.digest && Note(prog, s.pc, s.core) == Some(s.core)
    requires Write(prog.env, s.core, InAllocator(prog.env, s.pc), address, value, 1) == Some(after.core)
    requires after == s.(core := after.core)
    ensures Moves(prog, s, after) && Note(prog, after.pc, after.core) == Some(after.core)
    ensures after.core.pr == s.core.pr
  {
    hide Write, Note;
    DigestNoted(prog, s.core);
    DigestNoted(prog, after.core);
    WriteKeeps(prog.env, s.core, InAllocator(prog.env, s.pc), address, value);
  }

  lemma DigestReturns(prog: Program, s: Machine, after: Machine)
    requires Plainly(prog) && s.pc == prog.digest && Note(prog, s.pc, s.core) == Some(s.core)
    requires after == Returned(s, Digested(s.core))
    ensures Moves(prog, s, after)
  {
    hide Note, AbiReturn;
  }

  lemma LeafMoves(prog: Program, s: Machine, after: Machine)
    requires Note(prog, s.pc, s.core).Some? && s.pc != prog.report && Quiet(prog, s.pc)
    requires after == Returned(s, Note(prog, s.pc, s.core).value)
    ensures Moves(prog, s, after)
  {
    hide Note, AbiReturn;
  }

  lemma StepMoves(prog: Program, s: Machine, after: Machine)
    requires Note(prog, s.pc, s.core).Some? && s.pc != prog.report && !Quiet(prog, s.pc)
      && s.pc != prog.digest
    requires Step(prog.env, s.(core := Note(prog, s.pc, s.core).value)) == Some(after)
    ensures Moves(prog, s, after)
  {
    hide Note, Step;
  }
}
