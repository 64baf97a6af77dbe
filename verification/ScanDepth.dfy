/** Worst-case stack of the Games scan: the memoised longest call path in which the directory visitor
    is entered a bounded number of times. */
module ScanDepth {
  import opened Words
  import opened CallDepth

  const WALK: Name := "src/apps/games_covers.c:walk"
  const WALK_ENTRY: Name := "src/apps/games_covers.c:walk_entry"
  const VISIT: Name := "kui_games_visit_images"

  predicate InCycle(f: Name) { f == WALK || f == WALK_ENTRY || f == VISIT }

  datatype Emitted = Emitted(bytes: nat, fixed: bool)

  /** Emitted frames, the callees of each function in sorted order, and the directory depth. */
  datatype Program = Program(frames: map<Name, Emitted>, calls: map<Name, seq<Name>>, depth: nat)

  function Callees(g: Program, f: Name): seq<Name> { if f in g.calls then g.calls[f] else [] }

  /** How often the visitor is on the stack. */
  function Rounds(active: seq<Name>): nat {
    if active == [] then 0 else Rounds(active[..|active| - 1]) + (if active[|active| - 1] == VISIT then 1 else 0)
  }

  function Level(f: Name, k: nat): nat { if f == VISIT then k + 1 else k }

  /** A function the walk can enter with `k` rounds already running. */
  predicate Enters(g: Program, f: Name, k: nat) { f in g.frames && (f == VISIT ==> k < g.depth) }

  // ---------- what the answer means ----------

  /** A call path through emitted functions that stays within the directory depth. */
  predicate Route(g: Program, k: nat, p: seq<Name>)
    decreases |p|
  {
    p == [] || (Enters(g, p[0], k) && Route(g, Level(p[0], k), p[1..]) && (|p| > 1 ==> p[1] in Callees(g, p[0])))
  }

  predicate From(f: Name, p: seq<Name>) { p == [] || p[0] == f }

  function Bytes(g: Program, p: seq<Name>): nat {
    if p == [] then 0 else (if p[0] in g.frames then g.frames[p[0]].bytes else 0) + Bytes(g, p[1..])
  }

  /** `path` is a longest route from `f`, and `amount` is its frame total. */
  ghost predicate Longest(g: Program, f: Name, k: nat, amount: nat, path: seq<Name>) {
    && Route(g, k, path) && From(f, path) && Bytes(g, path) == amount
    && (Enters(g, f, k) ==> path != [])
    && forall q: seq<Name> :: Route(g, k, q) && From(f, q) ==> Bytes(g, q) <= amount
  }

  /** Why the walk refuses: the path reaches a frame of no fixed size, or comes back to a function that
      is outside the directory recursion and already active. */
  predicate Blocks(g: Program, active: seq<Name>, why: seq<Name>) {
    && why != [] && Route(g, Rounds(active), why)
    && var last := why[|why| - 1];
       (last in g.frames && !g.frames[last].fixed) || (!InCycle(last) && (last in active || last in why[..|why| - 1]))
  }

  /** No recursion between the two walk functions that does not pass through the visitor. */
  predicate NoInnerCycle(g: Program) {
    && !Inner(g, WALK, WALK) && !Inner(g, WALK_ENTRY, WALK_ENTRY)
    && !(Inner(g, WALK, WALK_ENTRY) && Inner(g, WALK_ENTRY, WALK))
  }

  predicate Inner(g: Program, a: Name, b: Name) { a in g.frames && b in g.frames && b in Callees(g, a) }

  // ---------- the memo ----------

  type Key = (Name, nat)

  datatype Notes = Notes(memo: map<Key, (nat, seq<Name>)>, boundaries: set<Name>, rank: map<Key, nat>)

  /** A callee that is a boundary, is cut off, or was answered earlier. */
  ghost predicate Settled(g: Program, s: Notes, c: Name, k: nat, below: nat) {
    || (c !in g.frames && c in s.boundaries)
    || (c in g.frames && !Enters(g, c, k))
    || ((c, k) in s.memo && (c, k) in s.rank && s.rank[(c, k)] < below)
  }

  ghost predicate SettledKey(g: Program, s: Notes, key: Key)
    requires key in s.memo && key in s.rank
  {
    && Enters(g, key.0, key.1) && g.frames[key.0].fixed
    && Longest(g, key.0, key.1, s.memo[key].0, s.memo[key].1)
    && s.rank[key] < |s.memo|
    && forall c :: c in Callees(g, key.0) ==> Settled(g, s, c, Level(key.0, key.1), s.rank[key])
  }

  ghost predicate Sound(g: Program, s: Notes) {
    s.rank.Keys == s.memo.Keys && forall key :: key in s.memo ==> SettledKey(g, s, key)
  }

  ghost predicate Grown(before: Notes, after: Notes) {
    && before.memo.Keys <= after.memo.Keys && before.boundaries <= after.boundaries
    && forall key :: key in before.rank ==> key in after.rank && after.rank[key] == before.rank[key]
  }

  lemma SettledGrows(g: Program, before: Notes, after: Notes, c: Name, k: nat, below: nat)
    requires Settled(g, before, c, k, below) && Grown(before, after)
    ensures Settled(g, after, c, k, below)
  {
  }

  lemma GrownTwice(a: Notes, b: Notes, c: Notes)
    requires Grown(a, b) && Grown(b, c)
    ensures Grown(a, c)
  {
  }

  // ---------- one function ----------

  lemma StoppedIsLongest(g: Program, f: Name, k: nat)
    requires !Enters(g, f, k)
    ensures Longest(g, f, k, 0, [])
  {
  }

  /** First option of greatest amount, as `max` with a key picks it. */
  function First(options: seq<(nat, seq<Name>)>): (r: (nat, seq<Name>))
    ensures options == [] ==> r == (0, [])
    ensures options != [] ==> r in options
    ensures forall j :: 0 <= j < |options| ==> options[j].0 <= r.0
  {
    if options == [] then (0, [])
    else
      var before := First(options[..|options| - 1]);
      var last := options[|options| - 1];
      if |options| == 1 || last.0 > before.0 then last else before
  }

  ghost predicate Options(g: Program, cs: seq<Name>, k: nat, options: seq<(nat, seq<Name>)>) {
    |options| == |cs| && forall i :: 0 <= i < |cs| ==> Longest(g, cs[i], k, options[i].0, options[i].1)
  }

  /** A frame on top of the best option is a longest route, whatever is active. */
  lemma FrameOnBest(g: Program, f: Name, k: nat, options: seq<(nat, seq<Name>)>)
    requires Enters(g, f, k) && Options(g, Callees(g, f), Level(f, k), options)
    ensures Longest(g, f, k, g.frames[f].bytes + First(options).0, [f] + First(options).1)
  {
    var best := First(options);
    var path := [f] + best.1;
    assert path[1..] == best.1;
    if options != [] {
      var i :| 0 <= i < |options| && options[i] == best;
      assert Longest(g, Callees(g, f)[i], Level(f, k), options[i].0, options[i].1);
    }
    forall q: seq<Name> | Route(g, k, q) && From(f, q) ensures Bytes(g, q) <= g.frames[f].bytes + best.0 {
      if |q| > 1 {
        var i :| 0 <= i < |options| && Callees(g, f)[i] == q[1];
        assert Longest(g, q[1], Level(f, k), options[i].0, options[i].1);
        assert From(q[1], q[1..]);
      } else if |q| == 1 {
        assert Bytes(g, q[1..]) == 0;
      }
    }
  }

  lemma RoundsPush(active: seq<Name>, f: Name)
    ensures Rounds(active + [f]) == Level(f, Rounds(active))
  {
    assert (active + [f])[..|active|] == active;
  }

  /** A reason below a callee is a reason below its caller. */
  lemma BlocksAbove(g: Program, active: seq<Name>, f: Name, why: seq<Name>)
    requires Enters(g, f, Rounds(active)) && Blocks(g, active + [f], why) && why[0] in Callees(g, f)
    ensures Blocks(g, active, [f] + why)
  {
    hide Route, Callees, Enters, Level, Rounds;
    RoundsPush(active, f);
    RouteAbove(g, f, Rounds(active), why);
    var longer, last := [f] + why, why[|why| - 1];
    assert longer[|longer| - 1] == last;
    assert longer[..|longer| - 1] == [f] + why[..|why| - 1];
  }

  lemma RouteAbove(g: Program, f: Name, k: nat, p: seq<Name>)
    requires Enters(g, f, k) && p != [] && Route(g, Level(f, k), p) && p[0] in Callees(g, f)
    ensures Route(g, k, [f] + p)
  {
    assert ([f] + p)[1..] == p;
  }

  lemma BlocksHere(g: Program, active: seq<Name>, f: Name)
    requires Enters(g, f, Rounds(active)) && (!g.frames[f].fixed || (!InCycle(f) && f in active))
    ensures Blocks(g, active, [f])
  {
    assert [f][1..] == [];
  }

  // ---------- termination ----------

  function Fresh(g: Program, active: seq<Name>): set<Name> {
    set f | f in g.frames.Keys && !InCycle(f) && f !in active
  }

  /** The walk functions nest at most two deep between visitors. */
  function Inwards(g: Program, f: Name): nat {
    if f !in g.frames then 0
    else if f == WALK then (if Inner(g, WALK, WALK_ENTRY) then 2 else 1)
    else if f == WALK_ENTRY then (if Inner(g, WALK_ENTRY, WALK) then 2 else 1)
    else 0
  }

  function Left(g: Program, active: seq<Name>): nat {
    if Rounds(active) <= g.depth then g.depth - Rounds(active) else 0
  }

  ghost predicate Descends(g: Program, active: seq<Name>, f: Name, c: Name) {
    var deeper := active + [f];
    || |Fresh(g, deeper)| < |Fresh(g, active)|
    || (|Fresh(g, deeper)| == |Fresh(g, active)| && Left(g, deeper) < Left(g, active))
    || (|Fresh(g, deeper)| == |Fresh(g, active)| && Left(g, deeper) == Left(g, active) && Inwards(g, c) < Inwards(g, f))
  }

  /** Every call goes down in fresh functions, rounds left and walk nesting, in this order. */
  lemma CallDescends(g: Program, active: seq<Name>, f: Name, c: Name)
    requires NoInnerCycle(g) && Enters(g, f, Rounds(active)) && (f in active ==> InCycle(f)) && c in Callees(g, f)
    ensures Descends(g, active, f, c)
  {
    RoundsPush(active, f);
    var deeper := active + [f];
    if InCycle(f) {
      assert Fresh(g, deeper) == Fresh(g, active);
    } else {
      assert Fresh(g, deeper) == Fresh(g, active) - {f} && f in Fresh(g, active);
      Smaller(Fresh(g, deeper), Fresh(g, active));
    }
  }
}
