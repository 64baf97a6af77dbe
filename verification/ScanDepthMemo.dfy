/** The in-place memo of the Games scan walk: keys forget the active stack, the answers do not depend on it. */
module ScanDepthMemo {
  import opened Words
  import opened CallDepth
  import opened ScanDepth

  class Scan {
    const g: Program
    var memo: map<Key, (nat, seq<Name>)>
    var boundaries: set<Name>
    ghost var rank: map<Key, nat>

    ghost function State(): Notes
      reads this
    {
      Notes(memo, boundaries, rank)
    }

    constructor (g: Program)
      ensures this.g == g && Sound(g, State()) && memo == map[] && memo.Keys == {} && boundaries == {}
    {
      this.g := g;
      memo, boundaries, rank := map[], {}, map[];
    }

    /** The longest route below `f`, or the reason there is none. */
    method Walk(f: Name, active: seq<Name>) returns (r: Option<(nat, seq<Name>)>, ghost why: seq<Name>)
      requires Sound(g, State()) && NoInnerCycle(g)
      modifies this
      ensures r.Some? ==> Longest(g, f, Rounds(active), r.value.0, r.value.1)
      ensures r.Some? ==> Sound(g, State()) && Grown(old(State()), State())
      ensures r.Some? ==> Settled(g, State(), f, Rounds(active), |memo|)
      ensures r.None? ==> Blocks(g, active, why) && why[0] == f
      ensures r.Some? <==> Visit(g, old(memo).Keys, f, active).Some?
      ensures r.Some? ==> memo.Keys == Visit(g, old(memo).Keys, f, active).value
      decreases |Fresh(g, active)|, Left(g, active), Inwards(g, f)
    {
      hide Sound, Longest, Blocks, NoInnerCycle, Fresh, Rounds, Left, Inwards, Options, AllSettled, Grown, Callees,
        First, Visit, VisitAll, InCycle, Settled, Level;
      why := [f];
      var k := Rounds(active);
      VisitUnfolds(g, memo.Keys, f, active);
      if f !in g.frames {
        StoppedIsLongest(g, f, k);
        BoundarySound(g, State(), f);
        boundaries := boundaries + {f};
        StoppedSettled(g, State(), f, k);
        return Some((0, [])), why;
      }
      if f == VISIT && k >= g.depth {
        StoppedIsLongest(g, f, k);
        NothingYet(g, State(), k);
        StoppedSettled(g, State(), f, k);
        return Some((0, [])), why;
      }
      if (f in active && !InCycle(f)) || !g.frames[f].fixed {
        BlocksHere(g, active, f);
        return None, why;
      }
      if (f, k) in memo {
        MemoAnswers(g, State(), (f, k));
        return Some(memo[(f, k)]), why;
      }
      var cs, options, i := Callees(g, f), [], 0;
      ghost var before := State();
      ghost var visited := VisitAll(g, memo.Keys, f, 0, active);
      NothingYet(g, before, Level(f, k));
      RoundsPush(active, f);
      while i < |cs|
        invariant 0 <= i <= |cs|
        invariant Sound(g, State()) && Grown(before, State())
        invariant Options(g, cs[..i], Level(f, k), options)
        invariant AllSettled(g, State(), cs[..i], Level(f, k), |memo|)
        invariant VisitAll(g, memo.Keys, f, i, active) == visited
      {
        CallDescends(g, active, f, cs[i]);
        ghost var middle := State();
        ghost var below;
        var option;
        VisitNext(g, memo.Keys, f, i, active);
        option, below := Walk(cs[i], active + [f]);
        if option.None? {
          BlocksAbove(g, active, f, below);
          return None, [f] + below;
        }
        GrownTwice(before, middle, State());
        OneMore(g, cs, i, Level(f, k), options, option.value, middle, State());
        options, i := options + [option.value], i + 1;
      }
      assert cs[..i] == cs;
      VisitDone(g, memo.Keys, f, active);
      FrameOnBest(g, f, k, options);
      var best := First(options);
      ghost var walked := State();
      memo := memo[(f, k) := (g.frames[f].bytes + best.0, [f] + best.1)];
      rank := if (f, k) in rank then rank else rank[(f, k) := |walked.memo|];
      RememberSound(g, walked, (f, k), memo[(f, k)], State());
      GrownTwice(before, walked, State());
      r := Some(memo[(f, k)]);
    }
  }

  /** The keys in the memo after a walk from `known`, or None where the walk refuses. */
  ghost function Visit(g: Program, known: set<Key>, f: Name, active: seq<Name>): Option<set<Key>>
    requires NoInnerCycle(g)
    decreases |Fresh(g, active)|, Left(g, active), Inwards(g, f), |Callees(g, f)| + 1
  {
    var key := (f, Rounds(active));
    if !Enters(g, f, key.1) then Some(known)
    else if (f in active && !InCycle(f)) || !g.frames[f].fixed then None
    else if key in known then Some(known)
    else
      Joined(VisitAll(g, known, f, 0, active), key)
  }

  /** The same for the callees of `f` from the i-th on. */
  ghost function VisitAll(g: Program, known: set<Key>, f: Name, i: nat, active: seq<Name>): Option<set<Key>>
    requires NoInnerCycle(g) && i <= |Callees(g, f)| && Enters(g, f, Rounds(active)) && (f in active ==> InCycle(f))
    decreases |Fresh(g, active)|, Left(g, active), Inwards(g, f), |Callees(g, f)| - i
  {
    if i == |Callees(g, f)| then Some(known)
    else
      CallDescends(g, active, f, Callees(g, f)[i]);
      match Visit(g, known, Callees(g, f)[i], active + [f])
      case None => None
      case Some(more) => VisitAll(g, more, f, i + 1, active)
  }

  lemma VisitUnfolds(g: Program, known: set<Key>, f: Name, active: seq<Name>)
    requires NoInnerCycle(g)
    ensures !Enters(g, f, Rounds(active)) ==> Visit(g, known, f, active) == Some(known)
    ensures Enters(g, f, Rounds(active)) && ((f in active && !InCycle(f)) || !g.frames[f].fixed) ==>
      Visit(g, known, f, active).None?
    ensures Enters(g, f, Rounds(active)) && (f in active ==> InCycle(f)) && g.frames[f].fixed ==>
      Visit(g, known, f, active) ==
        if (f, Rounds(active)) in known then Some(known)
        else Joined(VisitAll(g, known, f, 0, active), (f, Rounds(active)))
  {
    hide NoInnerCycle, Fresh, Left, Inwards, Callees;
  }

  function Joined(more: Option<set<Key>>, key: Key): Option<set<Key>> {
    match more case None => None case Some(keys) => Some(keys + {key})
  }

  lemma VisitNext(g: Program, known: set<Key>, f: Name, i: nat, active: seq<Name>)
    requires NoInnerCycle(g) && i < |Callees(g, f)| && Enters(g, f, Rounds(active)) && (f in active ==> InCycle(f))
    ensures var below := Visit(g, known, Callees(g, f)[i], active + [f]);
      VisitAll(g, known, f, i, active) == if below.None? then None else VisitAll(g, below.value, f, i + 1, active)
  {
    hide NoInnerCycle, Fresh, Left, Inwards, Callees, Visit, Rounds;
  }

  lemma VisitDone(g: Program, known: set<Key>, f: Name, active: seq<Name>)
    requires NoInnerCycle(g) && Enters(g, f, Rounds(active)) && (f in active ==> InCycle(f))
    ensures VisitAll(g, known, f, |Callees(g, f)|, active) == Some(known)
  {
    hide NoInnerCycle, Callees, Visit, Rounds;
  }

  ghost predicate AllSettled(g: Program, s: Notes, cs: seq<Name>, k: nat, below: nat) {
    forall c :: c in cs ==> Settled(g, s, c, k, below)
  }

  lemma NothingYet(g: Program, s: Notes, k: nat)
    ensures Grown(s, s) && Options(g, [], k, []) && AllSettled(g, s, [], k, |s.memo|)
  {
  }

  lemma StoppedSettled(g: Program, s: Notes, f: Name, k: nat)
    requires !Enters(g, f, k) && (f !in g.frames ==> f in s.boundaries)
    ensures Settled(g, s, f, k, |s.memo|)
  {
  }

  lemma BoundarySound(g: Program, s: Notes, f: Name)
    requires Sound(g, s)
    ensures var after := s.(boundaries := s.boundaries + {f}); Sound(g, after) && Grown(s, after)
  {
    hide Longest;
    var after := s.(boundaries := s.boundaries + {f});
    forall key | key in after.memo ensures SettledKey(g, after, key) { assert SettledKey(g, s, key); }
  }

  lemma MemoAnswers(g: Program, s: Notes, key: Key)
    requires Sound(g, s) && key in s.memo
    ensures Longest(g, key.0, key.1, s.memo[key].0, s.memo[key].1) && Settled(g, s, key.0, key.1, |s.memo|)
    ensures Grown(s, s)
  {
    hide Longest;
    assert SettledKey(g, s, key);
  }

  lemma OneMore(g: Program, cs: seq<Name>, i: nat, k: nat, options: seq<(nat, seq<Name>)>, option: (nat, seq<Name>),
    before: Notes, after: Notes)
    requires i < |cs| && Options(g, cs[..i], k, options) && Longest(g, cs[i], k, option.0, option.1)
    requires AllSettled(g, before, cs[..i], k, |before.memo|) && Grown(before, after)
    requires Settled(g, after, cs[i], k, |after.memo|)
    ensures Options(g, cs[..i + 1], k, options + [option]) && AllSettled(g, after, cs[..i + 1], k, |after.memo|)
  {
    hide Longest;
    MemoLarger(before, after);
    assert cs[..i + 1] == cs[..i] + [cs[i]];
    forall c | c in cs[..i] ensures Settled(g, after, c, k, |after.memo|) {
      SettledGrows(g, before, after, c, k, |before.memo|);
    }
  }

  lemma MemoLarger(before: Notes, after: Notes)
    requires Grown(before, after)
    ensures |before.memo| <= |after.memo|
  {
    assert after.memo.Keys == before.memo.Keys + (after.memo.Keys - before.memo.Keys);
    assert |after.memo.Keys| == |before.memo.Keys| + |after.memo.Keys - before.memo.Keys|;
  }

  lemma RememberSound(g: Program, s: Notes, key: Key, value: (nat, seq<Name>), after: Notes)
    requires Sound(g, s) && Enters(g, key.0, key.1) && g.frames[key.0].fixed
    requires Longest(g, key.0, key.1, value.0, value.1)
    requires AllSettled(g, s, Callees(g, key.0), Level(key.0, key.1), |s.memo|)
    requires after ==
      Notes(s.memo[key := value], s.boundaries, if key in s.rank then s.rank else s.rank[key := |s.memo|])
    ensures Sound(g, after) && Grown(s, after) && Settled(g, after, key.0, key.1, |after.memo|)
    ensures after.memo.Keys == s.memo.Keys + {key}
  {
    hide Longest, Enters, Callees, Settled, AllSettled, SettledKey;
    MemoLarger(s, after);
    MemoCounts(s, key, value);
    forall other | other in after.memo ensures SettledKey(g, after, other) {
      if other == key && key !in s.memo { NewKeySettled(g, s, key, after); }
      else { OldKeySettled(g, s, other, after, key, value); }
    }
    MemoAnswers(g, after, key);
  }

  lemma MemoCounts(s: Notes, key: Key, value: (nat, seq<Name>))
    ensures |s.memo[key := value]| == |s.memo| + (if key in s.memo then 0 else 1)
  {
    assert s.memo[key := value].Keys == s.memo.Keys + {key};
  }

  lemma NewKeySettled(g: Program, s: Notes, key: Key, after: Notes)
    requires Grown(s, after) && key in after.memo && key in after.rank && after.rank[key] == |s.memo| < |after.memo|
    requires Enters(g, key.0, key.1) && g.frames[key.0].fixed
    requires Longest(g, key.0, key.1, after.memo[key].0, after.memo[key].1)
    requires AllSettled(g, s, Callees(g, key.0), Level(key.0, key.1), |s.memo|)
    ensures SettledKey(g, after, key)
  {
    hide Longest, Enters, Callees, Settled, Grown;
    forall c | c in Callees(g, key.0) ensures Settled(g, after, c, Level(key.0, key.1), after.rank[key]) {
      SettledGrows(g, s, after, c, Level(key.0, key.1), after.rank[key]);
    }
  }

  lemma OldKeySettled(g: Program, s: Notes, other: Key, after: Notes, key: Key, value: (nat, seq<Name>))
    requires Sound(g, s) && Grown(s, after) && other in s.memo && other in s.rank && |s.memo| <= |after.memo|
    requires after.memo == s.memo[key := value] && Longest(g, key.0, key.1, value.0, value.1)
    ensures other in after.rank && SettledKey(g, after, other)
  {
    hide Longest, Enters, Callees, Settled;
    assert SettledKey(g, s, other);
    forall c | c in Callees(g, other.0) ensures Settled(g, after, c, Level(other.0, other.1), after.rank[other]) {
      SettledGrows(g, s, after, c, Level(other.0, other.1), after.rank[other]);
    }
  }

  // ---------- what an answer says about every route ----------

  /** The key of the i-th function of a route. */
  function KeyAt(p: seq<Name>, k: nat, i: nat): Key
    requires i < |p|
    decreases i
  {
    if i == 0 then (p[0], k) else KeyAt(p[1..], Level(p[0], k), i - 1)
  }

  lemma RouteTail(g: Program, k: nat, p: seq<Name>)
    requires Route(g, k, p) && |p| > 1
    ensures Enters(g, p[0], k) && Route(g, Level(p[0], k), p[1..]) && p[1] in Callees(g, p[0])
    ensures Enters(g, p[1], Level(p[0], k))
  {
  }

  /** Below an answered key every function of every route has its own, earlier answer. */
  lemma {:induction false} RouteAnswered(g: Program, s: Notes, k: nat, p: seq<Name>, i: nat)
    requires Sound(g, s) && p != [] && Route(g, k, p) && (p[0], k) in s.memo && i < |p|
    ensures KeyAt(p, k, i) in s.memo && KeyAt(p, k, i) in s.rank && KeyAt(p, k, i).0 == p[i]
    ensures s.rank[KeyAt(p, k, i)] <= s.rank[(p[0], k)] && (i > 0 ==> s.rank[KeyAt(p, k, i)] < s.rank[(p[0], k)])
    decreases i
  {
    hide Longest, Callees, Enters, Route;
    if i > 0 {
      RouteTail(g, k, p);
      assert SettledKey(g, s, (p[0], k));
      assert Settled(g, s, p[1], Level(p[0], k), s.rank[(p[0], k)]);
      EntersEmitted(g, p[1], Level(p[0], k));
      RouteAnswered(g, s, Level(p[0], k), p[1..], i - 1);
    }
  }

  lemma EntersEmitted(g: Program, f: Name, k: nat)
    requires Enters(g, f, k)
    ensures f in g.frames
  {
  }

  /** Every frame on every route has a fixed size, and every name called from it is emitted or noted
      as a boundary. */
  lemma RouteFixed(g: Program, s: Notes, k: nat, p: seq<Name>, i: nat, c: Name)
    requires Sound(g, s) && p != [] && Route(g, k, p) && (p[0], k) in s.memo && i < |p|
    ensures p[i] in g.frames && g.frames[p[i]].fixed
    ensures c in Callees(g, p[i]) ==> c in g.frames || c in s.boundaries
  {
    hide Longest, Callees, Route;
    RouteAnswered(g, s, k, p, i);
    var key := KeyAt(p, k, i);
    assert SettledKey(g, s, key);
    if c in Callees(g, p[i]) { assert Settled(g, s, c, Level(key.0, key.1), s.rank[key]); }
  }

  /** No route comes back to a function without another round of the visitor in between. */
  lemma {:induction false} NoRoundlessCycle(g: Program, s: Notes, k: nat, p: seq<Name>, i: nat, j: nat)
    requires Sound(g, s) && p != [] && Route(g, k, p) && (p[0], k) in s.memo && i < j < |p|
    ensures KeyAt(p, k, i) != KeyAt(p, k, j)
    decreases i
  {
    hide Longest, Callees, Enters, Route;
    if i == 0 {
      RouteAnswered(g, s, k, p, j);
    } else {
      RouteTail(g, k, p);
      RouteAnswered(g, s, k, p, 1);
      NoRoundlessCycle(g, s, Level(p[0], k), p[1..], i - 1, j - 1);
    }
  }

  // ---------- a recursion the memo hides ----------

  const HELPER: Name := "src/core/helper.c:helper"
  const START: Name := "kui_games_scan"

  /** A helper and the visitor that call each other, at directory depth one, and an entry that calls both. */
  function Mutual(): Program {
    Program(map[VISIT := Emitted(8, true), HELPER := Emitted(16, true), START := Emitted(4, true)],
      map[VISIT := [HELPER], HELPER := [VISIT], START := [VISIT, HELPER]], 1)
  }

  lemma MutualFacts()
    ensures NoInnerCycle(Mutual()) && !InCycle(HELPER) && !InCycle(START) && HELPER != START && Mutual().depth == 1
    ensures forall f :: f in {VISIT, HELPER, START} ==> f in Mutual().frames && Mutual().frames[f].fixed
    ensures Callees(Mutual(), VISIT) == [HELPER] && Callees(Mutual(), HELPER) == [VISIT]
    ensures Callees(Mutual(), START) == [VISIT, HELPER]
  {
    assert HELPER[0] != VISIT[0] && START[10] != VISIT[10];
  }

  /** The helper's own recursion is a reason to refuse it, below the helper and below the entry. */
  lemma MutualBlocks()
    ensures Reason(Mutual(), HELPER, [HELPER, VISIT, HELPER])
    ensures Reason(Mutual(), START, [START, HELPER, VISIT, HELPER])
  {
    hide Rounds, Mutual, Callees, InCycle;
    var g, p := Mutual(), [HELPER, VISIT, HELPER];
    NoRounds();
    MutualFacts();
    assert Route(g, 1, [HELPER]) by { assert [HELPER][1..] == []; }
    assert Route(g, 0, [VISIT, HELPER]) by { assert [VISIT, HELPER][1..] == [HELPER]; }
    assert Route(g, 0, p) by { assert p[1..] == [VISIT, HELPER]; }
    assert p[..2] == [HELPER, VISIT];
    RouteAbove(g, START, 0, p);
    assert [START] + p == [START, HELPER, VISIT, HELPER];
    assert ([START] + p)[..3] == [START, HELPER, VISIT];
  }

  lemma NoRounds()
    ensures Rounds([]) == 0
  {
  }

  /** The visitor's own walk, first or below the entry, notes the helper one round deep and itself. */
  lemma VisitorNoted(active: seq<Name>)
    requires NoInnerCycle(Mutual()) && Rounds(active) == 0 && HELPER !in active
    ensures Visit(Mutual(), {}, VISIT, active) == Some({(HELPER, 1), (VISIT, 0)})
  {
    hide Rounds, Mutual, Callees, InCycle, NoInnerCycle, Fresh, Left, Inwards;
    MutualFacts();
    VisitorIsCyclic();
    var g, deep := Mutual(), active + [VISIT];
    RoundsPush(active, VISIT);
    RoundsPush(deep, HELPER);
    assert Visit(g, {}, VISIT, deep + [HELPER]) == Some({});
    assert VisitAll(g, {}, HELPER, 0, deep) == Some({});
    assert {} + {(HELPER, 1)} == {(HELPER, 1)};
    assert Visit(g, {}, HELPER, deep) == Some({(HELPER, 1)});
    assert VisitAll(g, {}, VISIT, 0, active) == Some({(HELPER, 1)});
    assert {(HELPER, 1)} + {(VISIT, 0)} == {(HELPER, 1), (VISIT, 0)};
    VisitUnfolds(g, {}, VISIT, active);
  }

  /** With the visitor noted, the helper is answered at once. */
  lemma HelperNoted(active: seq<Name>)
    requires NoInnerCycle(Mutual()) && Rounds(active) == 0 && HELPER !in active
    ensures Visit(Mutual(), {(HELPER, 1), (VISIT, 0)}, HELPER, active).Some?
  {
    hide Rounds, Mutual, Callees, InCycle, NoInnerCycle, Fresh, Left, Inwards;
    MutualFacts();
    var g, known := Mutual(), {(HELPER, 1), (VISIT, 0)};
    RoundsPush(active, HELPER);
    VisitorIsCyclic();
    assert Visit(g, known, VISIT, active + [HELPER]) == Some(known);
    assert VisitAll(g, known, HELPER, 0, active) == Some(known);
  }

  lemma VisitorIsCyclic()
    ensures InCycle(VISIT)
  {
  }

  lemma StartNoted()
    requires NoInnerCycle(Mutual())
    ensures Visit(Mutual(), {}, START, []).Some?
  {
    hide Rounds, Mutual, Callees, InCycle, NoInnerCycle, Fresh, Left, Inwards;
    MutualFacts();
    NoRounds();
    RoundsPush([], START);
    var g, known := Mutual(), {(HELPER, 1), (VISIT, 0)};
    assert [] + [START] == [START];
    VisitorNoted([START]);
    HelperNoted([START]);
    assert VisitAll(g, known, START, 1, []).Some?;
    assert VisitAll(g, {}, START, 0, []) == VisitAll(g, known, START, 1, []);
  }

  /** The order of the entries decides: after the visitor was walked, the helper is answered although
      its recursion is a reason to refuse. */
  method MemoHidesRecursion() returns (visitor: Option<(nat, seq<Name>)>, helper: Option<(nat, seq<Name>)>)
    ensures visitor.Some? && helper.Some? && Reason(Mutual(), HELPER, [HELPER, VISIT, HELPER])
  {
    hide Longest, Blocks, Sound, Mutual, Rounds, Visit, NoInnerCycle;
    MutualFacts();
    NoRounds();
    VisitorNoted([]);
    HelperNoted([]);
    var scan := new Scan(Mutual());
    ghost var why;
    visitor, why := scan.Walk(VISIT, []);
    helper, why := scan.Walk(HELPER, []);
    MutualBlocks();
  }

  /** Even one fresh entry: it calls the visitor first, and its helper is answered in spite of a reason. */
  method FreshHidesRecursion() returns (r: Option<(nat, seq<Name>)>)
    ensures r.Some? && Reason(Mutual(), START, [START, HELPER, VISIT, HELPER])
  {
    hide Longest, Blocks, Sound, Mutual, Visit, NoInnerCycle;
    MutualFacts();
    StartNoted();
    var scan := new Scan(Mutual());
    ghost var why;
    r, why := scan.Walk(START, []);
    MutualBlocks();
  }

  lemma BlocksSomething(g: Program, active: seq<Name>, why: seq<Name>)
    requires Blocks(g, active, why)
    ensures why != []
  {
  }

  // ---------- why the walk functions must not recurse on their own ----------

  /** Whether the plain recursion answers within this many nested calls. */
  predicate AnswersWithin(g: Program, f: Name, active: seq<Name>, nested: nat)
    decreases nested
  {
    && nested > 0
    && (!Enters(g, f, Rounds(active))
        || ((f in active ==> InCycle(f)) && g.frames[f].fixed
            && forall c :: c in Callees(g, f) ==> AnswersWithin(g, c, active + [f], nested - 1)))
  }

  /** A cycle between the walk functions alone never answers, however many calls may nest. */
  lemma {:induction false} InnerCycleNeverAnswers(g: Program, a: Name, b: Name, active: seq<Name>, nested: nat)
    requires a in {WALK, WALK_ENTRY} && b in {WALK, WALK_ENTRY} && Inner(g, a, b) && Inner(g, b, a)
    ensures !AnswersWithin(g, a, active, nested)
    decreases nested
  {
    if nested > 0 { InnerCycleNeverAnswers(g, b, a, active + [a], nested - 1); }
  }

  lemma InnerCycleIsRefused(g: Program, active: seq<Name>, nested: nat)
    requires !NoInnerCycle(g)
    ensures exists f :: f in {WALK, WALK_ENTRY} && !AnswersWithin(g, f, active, nested)
  {
    hide AnswersWithin;
    if Inner(g, WALK, WALK) {
      InnerCycleNeverAnswers(g, WALK, WALK, active, nested);
    } else if Inner(g, WALK_ENTRY, WALK_ENTRY) {
      InnerCycleNeverAnswers(g, WALK_ENTRY, WALK_ENTRY, active, nested);
    } else {
      InnerCycleNeverAnswers(g, WALK, WALK_ENTRY, active, nested);
    }
  }

  // ---------- a fresh scan ----------

  /** The reason lies within one round: a frame of no fixed size, or a function that comes back before the
      visitor is entered again. */
  ghost predicate WithinRound(g: Program, why: seq<Name>)
    requires why != []
  {
    var last := |why| - 1;
    || (why[last] in g.frames && !g.frames[why[last]].fixed)
    || exists i :: 0 <= i < last && KeyAt(why, 0, i) == KeyAt(why, 0, last)
  }

  ghost predicate Reason(g: Program, f: Name, why: seq<Name>) { why != [] && Blocks(g, [], why) && why[0] == f }

  /** From an empty memo the walk answers exactly when the visit does; it refuses only with a reason, and if
      every reason lies within one round exactly when there is one. */
  method FreshScan(g: Program, f: Name) returns (r: Option<(nat, seq<Name>)>)
    requires NoInnerCycle(g)
    ensures r.Some? ==> Longest(g, f, 0, r.value.0, r.value.1)
    ensures r.Some? <==> Visit(g, {}, f, []).Some?
    ensures r.None? ==> exists why :: Reason(g, f, why)
    ensures (forall why :: Reason(g, f, why) ==> WithinRound(g, why)) ==> (r.None? <==> exists why :: Reason(g, f, why))
  {
    hide Longest, Blocks, Sound, NoInnerCycle, WithinRound, Settled, Visit;
    var scan := new Scan(g);
    ghost var why;
    NoRounds();
    r, why := scan.Walk(f, []);
    if r.None? {
      BlocksSomething(g, [], why);
      assert Reason(g, f, why);
    } else {
      forall other | Reason(g, f, other) ensures !WithinRound(g, other) {
        AnsweredHasNoReason(g, scan.State(), f, other, |scan.memo|);
      }
    }
  }

  lemma AnsweredHasNoReason(g: Program, s: Notes, f: Name, why: seq<Name>, below: nat)
    requires Sound(g, s) && Settled(g, s, f, 0, below) && Reason(g, f, why)
    ensures !WithinRound(g, why)
  {
    hide Sound, Longest;
    NoRounds();
    var last := |why| - 1;
    RouteStarts(g, 0, why);
    RouteFixed(g, s, 0, why, last, f);
    forall i | 0 <= i < last ensures KeyAt(why, 0, i) != KeyAt(why, 0, last) {
      NoRoundlessCycle(g, s, 0, why, i, last);
    }
  }

  lemma RouteStarts(g: Program, k: nat, p: seq<Name>)
    requires p != [] && Route(g, k, p)
    ensures Enters(g, p[0], k)
  {
  }
}
