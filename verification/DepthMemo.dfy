/** The memoised walk: it answers exactly what the walk without a memo answers, and the successor it
    remembers for each function leads along a deepest path. */
module DepthMemo {
  import opened Words
  import opened CallDepth

  /** Some function is worth this much, and its remembered successor accounts for it. */
  ghost predicate Explained(g: Graph, memo: map<Name, nat>, n: Name, next: Option<Name>)
    requires n in memo
  {
    && Edges(g, n).Some?
    && Depth(g, n, {}) == Some(memo[n])
    && match next
       case None => Edges(g, n).value == [] && memo[n] == Frame(g, n)
       case Some(c) => c in Edges(g, n).value && Depth(g, c, {}).Some? && memo[n] == Frame(g, n) + Depth(g, c, {}).value
  }

  /** Values in call order, each the answer without a memo. */
  ghost predicate Answers(g: Graph, children: seq<(nat, Name)>, cs: seq<Name>, visiting: set<Name>) {
    |children| == |cs| && forall i :: 0 <= i < |cs| ==>
      children[i].1 == cs[i] && Depth(g, cs[i], visiting) == Some(children[i].0)
  }

  lemma DeepestNeeds(g: Graph, cs: seq<Name>, visiting: set<Name>, c: Name)
    requires c in cs && Depth(g, c, visiting).None?
    ensures Deepest(g, cs, visiting).None?
  {
    hide Depth, Deepest;
    if Deepest(g, cs, visiting).Some? { DeepestBounds(g, cs, visiting, c); }
  }

  lemma OneRefuses(g: Graph, part: seq<Name>, whole: seq<Name>, visiting: set<Name>)
    requires Deepest(g, part, visiting).None? && forall c :: c in part ==> c in whole
    ensures Deepest(g, whole, visiting).None?
  {
    hide Depth, Deepest;
    var c := DeepestRefused(g, part, visiting);
    DeepestNeeds(g, whole, visiting, c);
  }

  lemma ReachSelf(g: Graph, n: Name)
    ensures Reachable(g, n, n)
  {
    var p := [n];
    assert Path(g, p) && p[0] == n && p[|p| - 1] == n;
  }

  lemma ReachThrough(g: Graph, n: Name, c: Name, s: Name)
    requires CallsDirectly(g, n, c) && Reachable(g, c, s)
    ensures Reachable(g, n, s)
  {
    hide CallsDirectly, Total;
    var q: seq<Name> :| Path(g, q) && q[0] == c && q[|q| - 1] == s;
    Extend(g, n, q);
    var p := [n] + q;
    assert Path(g, p) && p[0] == n && p[|p| - 1] == s;
  }

  predicate FirstAt(children: seq<(nat, Name)>, i: nat)
    requires i < |children|
  {
    (forall j :: 0 <= j < |children| ==> children[j].0 <= children[i].0)
    && (forall j :: 0 <= j < i ==> children[j].0 < children[i].0)
  }

  /** The first child of greatest depth, as `max` with a key picks it. */
  function First(children: seq<(nat, Name)>): (r: (nat, Option<Name>))
    ensures children == [] ==> r == (0, None)
    ensures children != [] ==>
      exists i :: 0 <= i < |children| && r == (children[i].0, Some(children[i].1)) && FirstAt(children, i)
  {
    if children == [] then (0, None)
    else
      var before := First(children[..|children| - 1]);
      var last := children[|children| - 1];
      if before.1.None? || last.0 > before.0 then (last.0, Some(last.1)) else before
  }

  /** The walker's fields as a value. */
  datatype Notes = Notes(visiting: set<Name>, seen: set<Name>, memo: map<Name, nat>, bestNext: map<Name, Option<Name>>)

  ghost predicate Sound(g: Graph, s: Notes) {
    && s.visiting <= g.frames.Keys - g.asm.Keys
    && s.memo.Keys <= g.frames.Keys - g.asm.Keys
    && s.bestNext.Keys == s.memo.Keys
    && s.visiting !! s.memo.Keys
    && Closed(g, s.memo.Keys)
    && (forall n :: n in s.memo ==> Explained(g, s.memo, n, s.bestNext[n]))
    && s.memo.Keys <= s.seen
    && (forall n, c :: n in s.memo && CallsDirectly(g, n, c) ==> c in s.seen)
  }

  ghost predicate ReachedFrom(g: Graph, starts: seq<Name>, s: Name) { exists n :: n in starts && Reachable(g, n, s) }

  /** What an answered walk adds: more memo entries, the same active path, nothing unreachable. */
  ghost predicate Grown(g: Graph, starts: seq<Name>, before: Notes, after: Notes) {
    && after.visiting == before.visiting && before.seen <= after.seen
    && before.memo.Keys <= after.memo.Keys
    && (forall s :: s in after.seen - before.seen ==> ReachedFrom(g, starts, s))
  }

  ghost predicate Known(g: Graph, s: Notes, n: Name) { n in s.seen && (n in s.memo || n in g.asm) }

  ghost predicate AllKnown(g: Graph, s: Notes, cs: seq<Name>) { forall c :: c in cs ==> Known(g, s, c) }

  /** Two answered walks, one after the other. */
  lemma GrownTwice(g: Graph, one: seq<Name>, two: seq<Name>, a: Notes, b: Notes, c: Notes)
    requires Grown(g, one, a, b) && Grown(g, two, b, c) && AllKnown(g, b, one) && AllKnown(g, c, two)
    ensures Grown(g, one + two, a, c) && AllKnown(g, c, one + two)
  {
    hide Reachable;
    forall s | s in c.seen - a.seen ensures ReachedFrom(g, one + two, s) {
      if s in b.seen {
        assert ReachedFrom(g, one, s);
        var n :| n in one && Reachable(g, n, s);
        assert n in one + two;
      } else {
        assert ReachedFrom(g, two, s);
        var n :| n in two && Reachable(g, n, s);
        assert n in one + two;
      }
    }
  }

  lemma GrownNot(g: Graph, s: Notes)
    ensures Grown(g, [], s, s) && AllKnown(g, s, [])
  {
  }

  lemma AnswersJoin(g: Graph, a: seq<(nat, Name)>, cs: seq<Name>, b: seq<(nat, Name)>, ds: seq<Name>,
    visiting: set<Name>)
    requires Answers(g, a, cs, visiting) && Answers(g, b, ds, visiting)
    ensures Answers(g, a + b, cs + ds, visiting)
  {
  }

  /** The best child is what the walk without a memo finds. */
  lemma {:induction false} BestIsDeepest(g: Graph, children: seq<(nat, Name)>, cs: seq<Name>, visiting: set<Name>)
    requires Answers(g, children, cs, visiting)
    ensures Deepest(g, cs, visiting) == Some(First(children).0)
    ensures First(children).1 == None ==> cs == []
    ensures First(children).1.Some? ==>
      var c := First(children).1.value; c in cs && Depth(g, c, visiting) == Some(First(children).0)
  {
    hide Depth, Deepest;
    forall c | c in cs ensures Depth(g, c, visiting).Some? {
      var i :| 0 <= i < |cs| && cs[i] == c;
      assert children[i].1 == cs[i];
    }
    DeepestAccepts(g, cs, visiting);
    if cs == [] {
      assert Deepest(g, cs, visiting) == Some(0) by { DeepestEmpty(g, visiting); }
    } else {
      var c := DeepestAttained(g, cs, visiting);
      var k :| 0 <= k < |cs| && cs[k] == c;
      var i :| 0 <= i < |children| && First(children) == (children[i].0, Some(children[i].1));
      DeepestBounds(g, cs, visiting, cs[i]);
      assert children[k].0 <= First(children).0;
    }
  }

  lemma DeepestEmpty(g: Graph, visiting: set<Name>)
    ensures Deepest(g, [], visiting) == Some(0)
  {
  }

  /** Leaving the active path with every callee known keeps the notes sound. */
  lemma RememberSound(g: Graph, s: Notes, n: Name, children: seq<(nat, Name)>, after: Notes)
    requires Sound(g, s) && n in s.visiting && n in s.seen && Edges(g, n).Some?
    requires Answers(g, children, Edges(g, n).value, s.visiting) && AllKnown(g, s, Edges(g, n).value)
    requires after == Notes(s.visiting - {n}, s.seen, s.memo[n := g.frames[n] + First(children).0],
      s.bestNext[n := First(children).1])
    ensures Sound(g, after) && Depth(g, n, after.visiting) == Some(after.memo[n])
  {
    hide Edges, Depth, First, Answers, Closed, Explained, AllKnown;
    BestIsDeepest(g, children, Edges(g, n).value, s.visiting);
    RememberedDepth(g, s.visiting, n, children);
    NewExplained(g, s, n, children, after.memo);
    ClosedMore(g, s, n);
    assert after.memo.Keys == s.memo.Keys + {n};
    forall m | m in s.memo ensures Explained(g, after.memo, m, after.bestNext[m]) {
      assert Explained(g, s.memo, m, s.bestNext[m]);
      SameExplained(g, s.memo, after.memo, m, s.bestNext[m]);
    }
  }

  lemma SameExplained(g: Graph, memo: map<Name, nat>, more: map<Name, nat>, n: Name, next: Option<Name>)
    requires n in memo && n in more && memo[n] == more[n] && Explained(g, memo, n, next)
    ensures Explained(g, more, n, next)
  {
    hide Edges, Depth;
  }

  lemma NewExplained(g: Graph, s: Notes, n: Name, children: seq<(nat, Name)>, memo: map<Name, nat>)
    requires n in g.frames && n !in g.asm && Edges(g, n).Some? && n in memo
    requires Answers(g, children, Edges(g, n).value, s.visiting)
    requires Depth(g, n, {}) == Some(memo[n]) && memo[n] == g.frames[n] + First(children).0
    ensures Explained(g, memo, n, First(children).1)
  {
    hide Edges, Depth, Deepest, First, Answers;
    BestIsDeepest(g, children, Edges(g, n).value, s.visiting);
    var next := First(children).1;
    if next.Some? { FewerActive(g, next.value, {}, s.visiting); }
    assert next.None? ==> First(children).0 == 0 by { DeepestEmpty(g, s.visiting); }
  }

  /** A function whose callees are all known may join the known ones. */
  lemma ClosedMore(g: Graph, s: Notes, n: Name)
    requires Closed(g, s.memo.Keys) && Edges(g, n).Some? && AllKnown(g, s, Edges(g, n).value)
    requires forall m, c :: m in s.memo && CallsDirectly(g, m, c) ==> c in s.seen
    ensures Closed(g, s.memo.Keys + {n})
    ensures forall m, c :: m in s.memo.Keys + {n} && CallsDirectly(g, m, c) ==> c in s.seen
  {
    hide Edges;
  }

  lemma RememberedDepth(g: Graph, visiting: set<Name>, n: Name, children: seq<(nat, Name)>)
    requires n in visiting && n in g.frames && n !in g.asm && Edges(g, n).Some?
    requires Deepest(g, Edges(g, n).value, visiting) == Some(First(children).0)
    ensures Depth(g, n, visiting - {n}) == Depth(g, n, {}) == Some(g.frames[n] + First(children).0)
  {
    hide Edges, Deepest, First;
    assert visiting - {n} + {n} == visiting;
    FewerActive(g, n, {}, visiting - {n});
  }

  class Walker {
    const g: Graph
    var visiting: set<Name>
    var seen: set<Name>
    var memo: map<Name, nat>
    var bestNext: map<Name, Option<Name>>

    ghost function State(): Notes
      reads this
    {
      Notes(visiting, seen, memo, bestNext)
    }

    constructor (g: Graph)
      ensures this.g == g && Sound(g, State()) && visiting == {} && seen == {} && memo == map[]
    {
      this.g := g;
      visiting, seen, memo, bestNext := {}, {}, map[], map[];
    }

    /** Deepest stack below a name; None is a refusal.  Exactly the answer without a memo. */
    method Walk(name: Name) returns (r: Option<nat>)
      requires Sound(g, State())
      modifies this
      ensures Resolve(g, name).None? ==> r.None?
      ensures Resolve(g, name).Some? ==> r == Depth(g, Resolve(g, name).value, old(visiting))
      ensures r.Some? ==> Sound(g, State()) && Grown(g, [Resolve(g, name).value], old(State()), State())
      ensures r.Some? ==> Known(g, State(), Resolve(g, name).value)
      decreases |g.frames.Keys - visiting|, 0, 0
    {
      hide Edges, Deepest, Depth, Explained, Reachable, Resolve, Sound, Closed, Grown;
      var resolved := Resolve(g, name);
      if resolved.None? { return None; }
      var n := resolved.value;
      if n in g.asm {
        LeafNoted(g, n, State());
        seen := seen + {n};
        return Some(g.asm[n]);
      }
      if n in visiting {
        ActiveDepth(g, n, visiting);
        return None;
      }
      if n in memo {
        MemoAnswers(g, State(), n);
        return Some(memo[n]);
      }
      EnterSound(g, State(), n);
      visiting := visiting + {n};
      seen := seen + {n};
      ghost var entered := State();
      var children := WalkCalls(n, SitesOf(g, n));
      NodeUnfolds(g, n, old(visiting));
      if children.None? { return None; }
      ghost var walked := State();
      SameActive(g, Edges(g, n).value, entered, walked);
      Remember(n, children.value);
      LeaveGrown(g, n, old(State()), entered, walked, State());
      r := Some(memo[n]);
    }

    /** The call sites of one function, in order. */
    method WalkCalls(n: Name, calls: seq<Call>) returns (r: Option<seq<(nat, Name)>>)
      requires Sound(g, State())
      modifies this
      ensures EdgesOf(g, n, calls).None? ==> r.None?
      ensures r.None? && EdgesOf(g, n, calls).Some? ==> Deepest(g, EdgesOf(g, n, calls).value, old(visiting)).None?
      ensures r.Some? ==> Answers(g, r.value, EdgesOf(g, n, calls).value, old(visiting))
      ensures r.Some? ==> Sound(g, State()) && Grown(g, EdgesOf(g, n, calls).value, old(State()), State())
      ensures r.Some? ==> AllKnown(g, State(), EdgesOf(g, n, calls).value)
      decreases |g.frames.Keys - visiting|, 2
    {
      hide Edges, Deepest, Depth, Sound, Reachable, AllKnown, Answers, ResolveAll, Grown;
      ghost var active, before := visiting, State();
      var children: seq<(nat, Name)>, i := [], 0;
      ghost var done: seq<Name> := [];
      assert calls[0..] == calls;
      PrependEnds([], EdgesOf(g, n, calls));
      GrownNot(g, before);
      NoAnswers(g, active);
      while i < |calls|
        invariant 0 <= i <= |calls|
        invariant EdgesOf(g, n, calls) == Prepend(done, EdgesOf(g, n, calls[i..]))
        invariant Answers(g, children, done, active) && visiting == active
        invariant Sound(g, State()) && Grown(g, done, before, State()) && AllKnown(g, State(), done)
      {
        assert calls[i..][1..] == calls[i + 1..];
        var targets := Selected(g, n, calls[i]);
        if targets.None? { return None; }
        ghost var cs := ResolveAll(g, targets.value);
        ghost var middle := State();
        var found := WalkAll(targets.value);
        if found.None? {
          if EdgesOf(g, n, calls).Some? { OneRefuses(g, cs.value, EdgesOf(g, n, calls).value, active); }
          return None;
        }
        PrependTwice(done, cs.value, EdgesOf(g, n, calls[i + 1..]));
        AnswersJoin(g, children, done, found.value, cs.value, active);
        GrownTwice(g, done, cs.value, before, middle, State());
        SameActive(g, cs.value, middle, State());
        children, done, i := children + found.value, done + cs.value, i + 1;
      }
      PrependEnds(done, None);
      r := Some(children);
    }

    /** One site: every function it may enter, in order. */
    method WalkAll(targets: seq<Name>) returns (r: Option<seq<(nat, Name)>>)
      requires Sound(g, State())
      modifies this
      ensures ResolveAll(g, targets).None? ==> r.None?
      ensures r.None? && ResolveAll(g, targets).Some? ==> Deepest(g, ResolveAll(g, targets).value, old(visiting)).None?
      ensures r.Some? ==> Answers(g, r.value, ResolveAll(g, targets).value, old(visiting))
      ensures r.Some? ==> Sound(g, State()) && Grown(g, ResolveAll(g, targets).value, old(State()), State())
      ensures r.Some? ==> AllKnown(g, State(), ResolveAll(g, targets).value)
      decreases |g.frames.Keys - visiting|, 1
    {
      hide Edges, Deepest, Depth, Sound, Reachable, Answers, Grown, Resolve, AllKnown, Known;
      ghost var active, before := visiting, State();
      var children: seq<(nat, Name)>, i := [], 0;
      ghost var done: seq<Name> := [];
      assert targets[0..] == targets;
      PrependEnds([], ResolveAll(g, targets));
      GrownNot(g, before);
      NoAnswers(g, active);
      while i < |targets|
        invariant 0 <= i <= |targets|
        invariant ResolveAll(g, targets) == Prepend(done, ResolveAll(g, targets[i..]))
        invariant Answers(g, children, done, active) && visiting == active
        invariant Sound(g, State()) && Grown(g, done, before, State()) && AllKnown(g, State(), done)
      {
        assert targets[i..][1..] == targets[i + 1..];
        ghost var middle := State();
        var value := Walk(targets[i]);
        if value.None? {
          if ResolveAll(g, targets).Some? {
            DeepestNeeds(g, ResolveAll(g, targets).value, active, Resolve(g, targets[i]).value);
          }
          return None;
        }
        var c := Resolve(g, targets[i]).value;
        PrependTwice(done, [c], ResolveAll(g, targets[i + 1..]));
        OneAnswer(g, value.value, c, active);
        AnswersJoin(g, children, done, [(value.value, c)], [c], active);
        OneKnown(g, State(), c);
        GrownTwice(g, done, [c], before, middle, State());
        SameActive(g, [c], middle, State());
        children, done, i := children + [(value.value, c)], done + [c], i + 1;
      }
      PrependEnds(done, None);
      r := Some(children);
    }

    /** Leave the active path: keep the first deepest child and the total. */
    method Remember(n: Name, children: seq<(nat, Name)>)
      requires Sound(g, State()) && n in visiting && n in seen && n in g.frames && Edges(g, n).Some?
      requires Answers(g, children, Edges(g, n).value, visiting) && AllKnown(g, State(), Edges(g, n).value)
      modifies this`visiting, this`memo, this`bestNext
      ensures Sound(g, State()) && visiting == old(visiting) - {n} && memo.Keys == old(memo).Keys + {n}
      ensures Depth(g, n, visiting) == Some(memo[n])
    {
      hide Edges, Deepest, Depth, Sound;
      ghost var before := State();
      visiting := visiting - {n};
      var best := First(children);
      memo := memo[n := g.frames[n] + best.0];
      bestNext := bestNext[n := best.1];
      RememberSound(g, before, n, children, State());
    }

    /** The worst depth below the root and the path remembered for it.  Refused if the root or a callback
        has no single frame, two callbacks share one, or a cycle or missing frame can be reached. */
    method Audit(name: Name, callbacks: seq<Name>) returns (r: Option<(nat, seq<Name>)>)
      requires State() == Notes({}, {}, map[], map[])
      modifies this
      ensures r.None? <==>
        !CallbacksApart(g, callbacks) || Resolve(g, name).None? || Hopeless(g, Resolve(g, name).value)
      ensures r.Some? ==> var root := Resolve(g, name).value;
        && Depth(g, root, {}) == Some(r.value.0)
        && Path(g, r.value.1) && r.value.1[0] == root && Total(g, r.value.1) == r.value.0
        && forall c :: c in seen <==> Reachable(g, root, c)
    {
      hide Edges, Depth, Deepest, Bad, Reachable, Sound, CallbacksApart, Resolve;
      var apart := CheckCallbacks(callbacks);
      var resolved := Resolve(g, name);
      if resolved.None? || !apart { return None; }
      var root := resolved.value;
      ResolvedAgain(g, name);
      EmptySound(g);
      var worst := Walk(root);
      RefusesExactly(g, root);
      if worst.None? { return None; }
      SeenExactly(g, root, State());
      var path := BestPath(root);
      r := Some((worst.value, path));
    }

    /** Every callback resolves, and to a frame of its own. */
    method CheckCallbacks(callbacks: seq<Name>) returns (ok: bool)
      ensures ok == CallbacksApart(g, callbacks)
    {
      hide Resolve;
      var found: seq<Name> := [];
      for i := 0 to |callbacks|
        invariant |found| == i && forall k :: 0 <= k < i ==> Resolve(g, callbacks[k]) == Some(found[k])
        invariant forall j, k :: 0 <= j < k < i ==> found[j] != found[k]
      {
        var c := Resolve(g, callbacks[i]);
        if c.None? || c.value in found { return false; }
        found := found + [c.value];
      }
      ok := true;
    }

    /** Follow the remembered successors from a function the walk has answered for. */
    method BestPath(root: Name) returns (path: seq<Name>)
      requires Sound(g, State()) && Known(g, State(), root) && Depth(g, root, {}).Some?
      ensures Path(g, path) && path[0] == root && Total(g, path) == Depth(g, root, {}).value
    {
      hide Edges, Depth, Deepest, Sound, Known, CallsDirectly, Total;
      path := [];
      var at: Option<Name> := Some(root);
      ghost var trail := [root];
      OneStepTrail(g, root);
      while at.Some?
        invariant Path(g, trail) && trail[0] == root
        invariant at.Some? ==> trail == path + [at.value] && Known(g, State(), at.value) && Depth(g, at.value, {}).Some?
        invariant at.Some? ==> Total(g, path) + Depth(g, at.value, {}).value == Depth(g, root, {}).value
        invariant at.None? ==> trail == path && Total(g, path) == Depth(g, root, {}).value
        invariant |path| <= |g.frames.Keys + g.asm.Keys|
        decreases |g.frames.Keys + g.asm.Keys| - |path|
      {
        TrailBounded(g, root, trail);
        ghost var before := path;
        path := path + [at.value];
        assert path[..|path| - 1] == before;
        var next := if at.value in bestNext then bestNext[at.value] else None;
        FollowNext(g, State(), path, at.value, next);
        if next.Some? { trail := path + [next.value]; }
        at := next;
      }
    }
  }

  /** A cycle or a missing frame can be reached. */
  ghost predicate Hopeless(g: Graph, root: Name) { exists p: seq<Name> :: Path(g, p) && p[0] == root && Bad(g, p) }

  predicate CallbacksApart(g: Graph, callbacks: seq<Name>) {
    && (forall i :: 0 <= i < |callbacks| ==> Resolve(g, callbacks[i]).Some?)
    && forall i, j :: 0 <= i < j < |callbacks| ==> Resolve(g, callbacks[i]) != Resolve(g, callbacks[j])
  }

  lemma ResolvedAgain(g: Graph, name: Name)
    requires Resolve(g, name).Some?
    ensures Resolve(g, Resolve(g, name).value) == Resolve(g, name)
  {
  }

  lemma EmptySound(g: Graph)
    ensures Sound(g, Notes({}, {}, map[], map[]))
  {
  }

  lemma OneStepTrail(g: Graph, root: Name)
    ensures Path(g, [root]) && Total(g, []) == 0
  {
  }

  /** A path below an answered root cannot outgrow the functions there are. */
  lemma TrailBounded(g: Graph, root: Name, p: seq<Name>)
    requires Depth(g, root, {}).Some? && Path(g, p) && p[0] == root
    ensures |p| <= |g.frames.Keys + g.asm.Keys|
  {
    hide Edges, Depth, Deepest, Total;
    AnswerBoundsPaths(g, root, {}, p);
    forall i | 0 <= i < |p| ensures p[i] in g.frames.Keys + g.asm.Keys {
      AnswerBoundsPaths(g, root, {}, p[..i + 1]) by {
        assert forall k :: 0 <= k < i ==> CallsDirectly(g, p[k], p[k + 1]);
      }
      assert Edges(g, p[i]).Some?;
      EdgesNamed(g, p[i]);
    }
    NoRepeatsBounded(p, g.frames.Keys + g.asm.Keys);
  }

  lemma EdgesNamed(g: Graph, n: Name)
    requires Edges(g, n).Some?
    ensures n in g.frames || n in g.asm
  {
  }

  lemma {:induction false} NoRepeatsBounded(p: seq<Name>, names: set<Name>)
    requires !Repeats(p) && forall i :: 0 <= i < |p| ==> p[i] in names
    ensures |p| <= |names|
    decreases |p|
  {
    if p != [] {
      var rest, last := p[..|p| - 1], p[|p| - 1];
      forall i, j | 0 <= i < j < |rest| ensures rest[i] != rest[j] { assert p[i] != p[j]; }
      forall i | 0 <= i < |rest| ensures rest[i] in names - {last} { assert p[i] != p[|p| - 1]; }
      NoRepeatsBounded(rest, names - {last});
      assert |names| == |names - {last}| + 1 by { assert names == names - {last} + {last}; }
    }
  }

  /** The remembered successor continues a deepest path, and its absence ends one. */
  lemma FollowNext(g: Graph, s: Notes, path: seq<Name>, n: Name, next: Option<Name>)
    requires Sound(g, s) && Known(g, s, n) && Path(g, path) && path[|path| - 1] == n && Depth(g, n, {}).Some?
    requires next == if n in s.bestNext then s.bestNext[n] else None
    ensures next.None? ==> Total(g, path) == Total(g, path[..|path| - 1]) + Depth(g, n, {}).value
    ensures next.Some? ==> Path(g, path + [next.value]) && Known(g, s, next.value) && Depth(g, next.value, {}).Some?
    ensures next.Some? ==>
      Total(g, path) + Depth(g, next.value, {}).value == Total(g, path[..|path| - 1]) + Depth(g, n, {}).value
  {
    hide Edges, Deepest;
    assert path == path[..|path| - 1] + [n];
    TotalAppend(g, path[..|path| - 1], n);
    if n in s.memo {
      assert Explained(g, s.memo, n, s.bestNext[n]);
      if next.Some? {
        assert CallsDirectly(g, n, next.value);
        var longer := path + [next.value];
        forall i | 0 <= i < |longer| - 1 ensures CallsDirectly(g, longer[i], longer[i + 1]) {
          if i < |path| - 1 { assert CallsDirectly(g, path[i], path[i + 1]); }
        }
      }
    }
  }

  lemma {:induction false} TotalAppend(g: Graph, p: seq<Name>, n: Name)
    ensures Total(g, p + [n]) == Total(g, p) + Frame(g, n)
    decreases |p|
  {
    if p == [] {
      assert Total(g, [n][1..]) == 0;
    } else {
      assert (p + [n])[1..] == p[1..] + [n];
      TotalAppend(g, p[1..], n);
    }
  }

  /** After an answered walk from empty notes, what was seen is what can be reached. */
  lemma SeenExactly(g: Graph, root: Name, s: Notes)
    requires Sound(g, s) && Known(g, s, root) && Grown(g, [root], Notes({}, {}, map[], map[]), s)
    ensures forall c :: c in s.seen <==> Reachable(g, root, c)
  {
    hide Edges, Sound, Known, CallsDirectly;
    forall c ensures c in s.seen <==> Reachable(g, root, c) {
      if c in s.seen {
        assert c in s.seen - {};
        assert ReachedFrom(g, [root], c);
      }
      if Reachable(g, root, c) {
        var p: seq<Name> :| Path(g, p) && p[0] == root && p[|p| - 1] == c;
        PathKnown(g, s, p);
        KnownSeen(g, s, c);
      }
    }
  }

  lemma KnownSeen(g: Graph, s: Notes, c: Name)
    requires Known(g, s, c)
    ensures c in s.seen
  {
  }

  lemma {:induction false} PathKnown(g: Graph, s: Notes, p: seq<Name>)
    requires Sound(g, s) && Path(g, p) && Known(g, s, p[0])
    ensures Known(g, s, p[|p| - 1])
    decreases |p|
  {
    if |p| > 1 {
      TailPath(g, p);
      assert p[0] in s.memo;
      PathKnown(g, s, p[1..]);
    }
  }

  // ---------- the reported frames ----------

  /** The report looks frames up the other way round: compiled frames before assembly leaves. */
  function ReportedFrame(g: Graph, n: Name): nat {
    if n in g.frames then g.frames[n] else if n in g.asm then g.asm[n] else 0
  }

  function Reported(g: Graph, p: seq<Name>): nat { if p == [] then 0 else ReportedFrame(g, p[0]) + Reported(g, p[1..]) }

  /** The reported frames add up to the walk's total exactly when the last function is not an assembly
      leaf with a different compiled frame. */
  lemma {:induction false} ReportAddsUp(g: Graph, p: seq<Name>)
    requires Path(g, p)
    ensures var last := p[|p| - 1];
      Reported(g, p) == Total(g, p) <==> !(last in g.asm && last in g.frames && g.asm[last] != g.frames[last])
    decreases |p|
  {
    if |p| == 1 {
      assert Total(g, p[1..]) == 0 && Reported(g, p[1..]) == 0;
    } else {
      TailPath(g, p);
      ReportAddsUp(g, p[1..]);
    }
  }

  lemma LeafNoted(g: Graph, n: Name, s: Notes)
    requires n in g.asm && Sound(g, s)
    ensures Depth(g, n, s.visiting) == Some(g.asm[n])
    ensures var after := s.(seen := s.seen + {n}); Sound(g, after) && Grown(g, [n], s, after) && Known(g, after, n)
  {
    hide Edges, Explained;
    ReachSelf(g, n);
  }

  lemma ActiveDepth(g: Graph, n: Name, visiting: set<Name>)
    requires n in visiting && n !in g.asm
    ensures Depth(g, n, visiting).None?
  {
  }

  lemma MemoAnswers(g: Graph, s: Notes, n: Name)
    requires Sound(g, s) && n in s.memo
    ensures Depth(g, n, s.visiting) == Some(s.memo[n]) && Grown(g, [n], s, s) && Known(g, s, n)
  {
    hide Edges, Depth;
    assert Explained(g, s.memo, n, s.bestNext[n]);
    ClosedIgnoresActive(g, s.memo.Keys, n, {}, s.visiting);
    assert {} + s.visiting == s.visiting;
  }

  lemma EnterSound(g: Graph, s: Notes, n: Name)
    requires Sound(g, s) && n in g.frames && n !in g.asm && n !in s.visiting && n !in s.memo
    ensures Sound(g, s.(visiting := s.visiting + {n}, seen := s.seen + {n}))
    ensures |g.frames.Keys - (s.visiting + {n})| < |g.frames.Keys - s.visiting|
  {
    hide Edges, Explained;
    assert n in g.frames.Keys - s.visiting;
    Smaller(g.frames.Keys - (s.visiting + {n}), g.frames.Keys - s.visiting);
  }

  lemma NodeUnfolds(g: Graph, n: Name, visiting: set<Name>)
    requires n in g.frames && n !in g.asm && n !in visiting
    ensures Edges(g, n) == EdgesOf(g, n, SitesOf(g, n))
    ensures Edges(g, n).None? ==> Depth(g, n, visiting).None?
    ensures Edges(g, n).Some? && Deepest(g, Edges(g, n).value, visiting + {n}).None? ==> Depth(g, n, visiting).None?
  {
  }

  lemma LeaveGrown(g: Graph, n: Name, before: Notes, entered: Notes, walked: Notes, after: Notes)
    requires n !in before.visiting && Edges(g, n).Some? && Grown(g, Edges(g, n).value, entered, walked)
    requires entered == before.(visiting := before.visiting + {n}, seen := before.seen + {n})
    requires after.visiting == walked.visiting - {n} && after.seen == walked.seen
      && after.memo.Keys == walked.memo.Keys + {n}
    ensures Grown(g, [n], before, after) && Known(g, after, n)
  {
    hide Edges, Reachable;
    ReachSelf(g, n);
    forall s | s in after.seen - before.seen ensures ReachedFrom(g, [n], s) {
      if s != n {
        assert ReachedFrom(g, Edges(g, n).value, s);
        var c :| c in Edges(g, n).value && Reachable(g, c, s);
        ReachThrough(g, n, c, s);
      }
      assert n in [n];
    }
  }

  lemma NoAnswers(g: Graph, visiting: set<Name>)
    ensures Answers(g, [], [], visiting)
  {
  }

  lemma OneAnswer(g: Graph, value: nat, c: Name, visiting: set<Name>)
    requires Depth(g, c, visiting) == Some(value)
    ensures Answers(g, [(value, c)], [c], visiting)
  {
  }

  lemma OneKnown(g: Graph, s: Notes, c: Name)
    requires Known(g, s, c)
    ensures AllKnown(g, s, [c])
  {
  }

  lemma SameActive(g: Graph, starts: seq<Name>, before: Notes, after: Notes)
    requires Grown(g, starts, before, after)
    ensures after.visiting == before.visiting && before.seen <= after.seen
  {
  }

  /** A leaf known to both tables with different sizes. */
  function TwiceKnown(): Graph {
    var calls := map["main" := [Direct("leaf")]];
    Graph(map["leaf" := 4], map["main" := 10, "leaf" := 8], n => n, map[], calls, map[])
  }

  /** The report names 18 bytes there for a depth of 14. */
  lemma ReportMisses()
    ensures var g := TwiceKnown();
      && Path(g, ["main", "leaf"]) && Depth(g, "main", {}) == Some(14)
      && Total(g, ["main", "leaf"]) == 14 && Reported(g, ["main", "leaf"]) == 18
  {
    var g := TwiceKnown();
    assert "main" != "leaf";
    assert ResolveAll(g, []) == Some([]) && EdgesOf(g, "main", []) == Some([]);
    assert ResolveAll(g, ["leaf"]) == Some(["leaf"]) by {
      assert ["leaf"][1..] == [];
      PrependEnds(["leaf"], ResolveAll(g, []));
    }
    assert EdgesOf(g, "main", [Direct("leaf")]) == Some(["leaf"]) by {
      assert [Direct("leaf")][1..] == [];
      PrependEnds(["leaf"], EdgesOf(g, "main", []));
    }
    assert CallsDirectly(g, "main", "leaf");
    assert ["main", "leaf"][1..] == ["leaf"] && ["leaf"][1..] == [];
    assert Deepest(g, ["leaf"], {"main"}) == Some(4) by { LeafAlone(g); }
    assert {} + {"main"} == {"main"};
  }

  lemma LeafAlone(g: Graph)
    requires "leaf" in g.asm && g.asm["leaf"] == 4
    ensures Deepest(g, ["leaf"], {"main"}) == Some(4)
  {
    assert Depth(g, "leaf", {"main"}) == Some(4);
    assert ["leaf"][1..] == [];
    assert Deepest(g, [], {"main"}) == Some(0);
  }
}
