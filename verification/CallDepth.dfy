/** Static call graphs, the walk without a memo, and what its value and its refusals mean in terms of
    call paths. */
module CallDepth {
  import opened Words

  type Name = string

  datatype Call = Direct(target: Name) | Indirect(site: string)

  /** Assembly leaves, compiled frames, the index by base name, the call sites of each function and
      the callbacks each pinned indirect site may select. */
  datatype Graph = Graph(
    asm: map<Name, nat>,
    frames: map<Name, nat>,
    base: Name -> Name,
    byBase: map<Name, seq<Name>>,
    calls: map<Name, seq<Call>>,
    sites: map<(Name, string), seq<Name>>)

  /** A name is an assembly leaf, a frame, or the only frame with its base name. */
  function Resolve(g: Graph, name: Name): (r: Option<Name>)
    ensures r.Some? ==> r.value in g.asm || r.value in g.frames
  {
    if name in g.asm || name in g.frames then Some(name)
    else if g.base(name) !in g.byBase || |g.byBase[g.base(name)]| != 1 then None
    else
      var match0 := g.byBase[g.base(name)][0];
      if match0 in g.frames then Some(match0) else None
  }

  /** A name that is no node itself resolves exactly to the sole frame with its base name. */
  lemma ResolvesExactly(g: Graph, name: Name, node: Name)
    ensures Resolve(g, name) == Some(node) <==>
      if name in g.asm.Keys + g.frames.Keys then node == name
      else node in g.frames && g.base(name) in g.byBase && g.byBase[g.base(name)] == [node]
  {
    if g.base(name) in g.byBase && |g.byBase[g.base(name)]| == 1 {
      assert g.byBase[g.base(name)] == [g.byBase[g.base(name)][0]];
    }
  }

  /** The names a call site may enter; None for an indirect site nobody reviewed. */
  function Selected(g: Graph, name: Name, call: Call): Option<seq<Name>> {
    match call
    case Direct(target) => Some([target])
    case Indirect(site) => if (name, site) in g.sites then Some(g.sites[(name, site)]) else None
  }

  function ResolveAll(g: Graph, names: seq<Name>): Option<seq<Name>> {
    if names == [] then Some([])
    else match Resolve(g, names[0])
      case None => None
      case Some(c) => Prepend([c], ResolveAll(g, names[1..]))
  }

  function SitesOf(g: Graph, name: Name): seq<Call> { if name in g.calls then g.calls[name] else [] }

  function EdgesOf(g: Graph, name: Name, calls: seq<Call>): Option<seq<Name>> {
    if calls == [] then Some([])
    else match Selected(g, name, calls[0])
      case None => None
      case Some(targets) =>
        match ResolveAll(g, targets)
        case None => None
        case Some(cs) => Prepend(cs, EdgesOf(g, name, calls[1..]))
  }

  /** Every function a node can enter next; None if one of them has no single frame. */
  function Edges(g: Graph, n: Name): Option<seq<Name>> {
    if n in g.asm then Some([])
    else if n !in g.frames then None
    else EdgesOf(g, n, SitesOf(g, n))
  }

  function Frame(g: Graph, n: Name): nat {
    if n in g.asm then g.asm[n] else if n in g.frames then g.frames[n] else 0
  }

  // ---------- the walk without a memo ----------

  /** Deepest stack below `n` with `visiting` on the active path; None is a refusal. */
  function Depth(g: Graph, n: Name, visiting: set<Name>): Option<nat>
    decreases |g.frames.Keys - visiting|, 0
  {
    if n in g.asm then Some(g.asm[n])
    else if n !in g.frames || n in visiting || Edges(g, n).None? then None
    else
      assert g.frames.Keys - (visiting + {n}) < g.frames.Keys - visiting by {
        assert n in g.frames.Keys - visiting;
      }
      Smaller(g.frames.Keys - (visiting + {n}), g.frames.Keys - visiting);
      match Deepest(g, Edges(g, n).value, visiting + {n})
      case None => None
      case Some(below) => Some(g.frames[n] + below)
  }

  function Deepest(g: Graph, cs: seq<Name>, visiting: set<Name>): Option<nat>
    decreases |g.frames.Keys - visiting|, |cs|
  {
    if cs == [] then Some(0)
    else match Depth(g, cs[0], visiting)
      case None => None
      case Some(first) =>
        match Deepest(g, cs[1..], visiting)
        case None => None
        case Some(rest) => Some(if first >= rest then first else rest)
  }

  lemma Smaller<T>(a: set<T>, b: set<T>)
    requires a < b
    ensures |a| < |b|
  {
    assert b == a + (b - a);
    assert |b| == |a| + |b - a|;
    var x :| x in b && x !in a;
    assert x in b - a;
  }

  lemma {:induction false} DeepestBounds(g: Graph, cs: seq<Name>, visiting: set<Name>, c: Name)
    requires c in cs && Deepest(g, cs, visiting).Some?
    ensures Depth(g, c, visiting).Some? && Depth(g, c, visiting).value <= Deepest(g, cs, visiting).value
    decreases |cs|
  {
    hide Depth;
    if c != cs[0] { DeepestBounds(g, cs[1..], visiting, c); }
  }

  lemma {:induction false} DeepestAttained(g: Graph, cs: seq<Name>, visiting: set<Name>) returns (c: Name)
    requires cs != [] && Deepest(g, cs, visiting).Some?
    ensures c in cs && Depth(g, c, visiting) == Deepest(g, cs, visiting)
    decreases |cs|
  {
    hide Depth;
    var first := Depth(g, cs[0], visiting).value;
    if |cs| == 1 || first >= Deepest(g, cs[1..], visiting).value { c := cs[0]; }
    else { c := DeepestAttained(g, cs[1..], visiting); }
  }

  lemma {:induction false} DeepestRefused(g: Graph, cs: seq<Name>, visiting: set<Name>) returns (c: Name)
    requires Deepest(g, cs, visiting).None?
    ensures c in cs && Depth(g, c, visiting).None?
    decreases |cs|
  {
    hide Depth;
    if Depth(g, cs[0], visiting).None? { c := cs[0]; }
    else { c := DeepestRefused(g, cs[1..], visiting); }
  }

  lemma {:induction false} DeepestAccepts(g: Graph, cs: seq<Name>, visiting: set<Name>)
    requires forall c :: c in cs ==> Depth(g, c, visiting).Some?
    ensures Deepest(g, cs, visiting).Some?
    decreases |cs|
  {
    hide Depth;
    if cs != [] { DeepestAccepts(g, cs[1..], visiting); }
  }

  // ---------- call paths ----------

  ghost predicate CallsDirectly(g: Graph, n: Name, c: Name) { Edges(g, n).Some? && c in Edges(g, n).value }

  /** Consecutive calls. */
  ghost predicate Path(g: Graph, p: seq<Name>) {
    p != [] && forall i :: 0 <= i < |p| - 1 ==> CallsDirectly(g, p[i], p[i + 1])
  }

  function Total(g: Graph, p: seq<Name>): nat { if p == [] then 0 else Frame(g, p[0]) + Total(g, p[1..]) }

  predicate Repeats(p: seq<Name>) { exists i, j :: 0 <= i < j < |p| && p[i] == p[j] }

  /** A reason to refuse: the path closes a cycle, or ends where a frame is missing. */
  ghost predicate Bad(g: Graph, p: seq<Name>) { p != [] && (Repeats(p) || Edges(g, p[|p| - 1]).None?) }

  ghost predicate Reachable(g: Graph, n: Name, c: Name) {
    exists p: seq<Name> :: Path(g, p) && p[0] == n && p[|p| - 1] == c
  }

  lemma Extend(g: Graph, n: Name, q: seq<Name>)
    requires Path(g, q) && CallsDirectly(g, n, q[0])
    ensures Path(g, [n] + q) && Total(g, [n] + q) == Frame(g, n) + Total(g, q)
  {
    var p := [n] + q;
    forall i | 0 <= i < |p| - 1 ensures CallsDirectly(g, p[i], p[i + 1]) {
      if i > 0 { assert CallsDirectly(g, q[i - 1], q[i]); }
    }
    assert p[1..] == q;
  }

  lemma TailPath(g: Graph, p: seq<Name>)
    requires Path(g, p) && |p| > 1
    ensures Path(g, p[1..]) && CallsDirectly(g, p[0], p[1])
  {
    forall i | 0 <= i < |p[1..]| - 1 ensures CallsDirectly(g, p[1..][i], p[1..][i + 1]) {
      assert CallsDirectly(g, p[i + 1], p[i + 2]);
    }
    assert CallsDirectly(g, p[0], p[0 + 1]);
  }

  /** One accepted node: its callees are accepted with the node added to the active path. */
  lemma DepthUnfolds(g: Graph, n: Name, visiting: set<Name>, c: Name)
    requires Depth(g, n, visiting).Some? && CallsDirectly(g, n, c)
    ensures n !in visiting && n in g.frames && n !in g.asm && Depth(g, c, visiting + {n}).Some?
    ensures Frame(g, n) + Depth(g, c, visiting + {n}).value <= Depth(g, n, visiting).value
  {
    hide Deepest;
    assert n !in g.asm;
    DeepestBounds(g, Edges(g, n).value, visiting + {n}, c);
  }

  /** Where the walk answers, every call path below is sound, avoids the active path and fits. */
  lemma {:induction false} AnswerBoundsPaths(g: Graph, n: Name, visiting: set<Name>, p: seq<Name>)
    requires Depth(g, n, visiting).Some? && Path(g, p) && p[0] == n && visiting !! g.asm.Keys
    ensures !Bad(g, p) && (forall i :: 0 <= i < |p| ==> p[i] !in visiting)
    ensures Total(g, p) <= Depth(g, n, visiting).value
    decreases |p|
  {
    hide Deepest;
    if |p| == 1 {
      assert Total(g, p[1..]) == 0;
    } else {
      TailPath(g, p);
      DepthUnfolds(g, n, visiting, p[1]);
      AnswerBoundsPaths(g, p[1], visiting + {n}, p[1..]);
      Avoids(n, visiting, p);
    }
  }

  lemma Avoids(n: Name, visiting: set<Name>, p: seq<Name>)
    requires |p| > 1 && p[0] == n && n !in visiting && !Repeats(p[1..])
    requires forall i :: 0 <= i < |p[1..]| ==> p[1..][i] !in visiting + {n}
    ensures !Repeats(p) && forall i :: 0 <= i < |p| ==> p[i] !in visiting
  {
    forall i | 0 <= i < |p| ensures p[i] !in visiting && (i > 0 ==> p[i] != n) {
      if i > 0 { assert p[i] == p[1..][i - 1]; }
    }
    forall i, j | 0 <= i < j < |p| ensures p[i] != p[j] {
      if i > 0 { assert p[i] == p[1..][i - 1] && p[j] == p[1..][j - 1]; }
    }
  }

  /** The answer is attained by a call path. */
  lemma {:induction false} AnswerAttained(g: Graph, n: Name, visiting: set<Name>) returns (p: seq<Name>)
    requires Depth(g, n, visiting).Some?
    ensures Path(g, p) && p[0] == n && Total(g, p) == Depth(g, n, visiting).value
    decreases |g.frames.Keys - visiting|
  {
    if n in g.asm || Edges(g, n).value == [] {
      p := [n];
      assert Total(g, p[1..]) == 0;
    } else {
      Smaller(g.frames.Keys - (visiting + {n}), g.frames.Keys - visiting) by {
        assert n in g.frames.Keys - visiting;
      }
      var c := DeepestAttained(g, Edges(g, n).value, visiting + {n});
      var q := AnswerAttained(g, c, visiting + {n});
      Extend(g, n, q);
      p := [n] + q;
    }
  }

  /** A refusal has a reason: a path to a missing frame, to the active path, or around a cycle. */
  lemma {:induction false} RefusalReason(g: Graph, n: Name, visiting: set<Name>) returns (p: seq<Name>)
    requires Depth(g, n, visiting).None?
    ensures Path(g, p) && p[0] == n && (Bad(g, p) || p[|p| - 1] in visiting)
    decreases |g.frames.Keys - visiting|
  {
    if n !in g.frames || n in visiting || Edges(g, n).None? {
      p := [n];
    } else {
      Smaller(g.frames.Keys - (visiting + {n}), g.frames.Keys - visiting) by {
        assert n in g.frames.Keys - visiting;
      }
      var c := DeepestRefused(g, Edges(g, n).value, visiting + {n});
      var q := RefusalReason(g, c, visiting + {n});
      Extend(g, n, q);
      p := [n] + q;
      Carried(g, n, q, visiting);
    }
  }

  lemma Carried(g: Graph, n: Name, q: seq<Name>, visiting: set<Name>)
    requires q != [] && (Bad(g, q) || q[|q| - 1] in visiting + {n})
    ensures Bad(g, [n] + q) || ([n] + q)[|q|] in visiting
  {
    var p := [n] + q;
    assert p[|p| - 1] == q[|q| - 1];
    if Repeats(q) {
      var i, j :| 0 <= i < j < |q| && q[i] == q[j];
      assert p[i + 1] == p[j + 1];
    } else if q[|q| - 1] == n {
      assert p[0] == p[|p| - 1];
    }
  }

  /** The walk refuses exactly when a cycle or a missing frame can be reached. */
  lemma RefusesExactly(g: Graph, n: Name)
    ensures Depth(g, n, {}).None? <==> exists p: seq<Name> :: Path(g, p) && p[0] == n && Bad(g, p)
  {
    hide Depth, Bad;
    if Depth(g, n, {}).None? {
      var p := RefusalReason(g, n, {});
      assert Path(g, p) && p[0] == n && Bad(g, p);
    } else {
      forall p: seq<Name> | Path(g, p) && p[0] == n ensures !Bad(g, p) { AnswerBoundsPaths(g, n, {}, p); }
    }
  }

  /** Otherwise its answer is the largest frame total over all call paths. */
  lemma AnswerIsMaximum(g: Graph, n: Name, v: nat)
    requires Depth(g, n, {}).Some?
    ensures Depth(g, n, {}) == Some(v) <==>
      (forall p: seq<Name> :: Path(g, p) && p[0] == n ==> Total(g, p) <= v)
      && (exists p: seq<Name> :: Path(g, p) && p[0] == n && Total(g, p) == v)
  {
    hide Depth;
    var best := AnswerAttained(g, n, {});
    forall p: seq<Name> | Path(g, p) && p[0] == n ensures Total(g, p) <= Depth(g, n, {}).value {
      AnswerBoundsPaths(g, n, {}, p);
    }
    if Depth(g, n, {}) == Some(v) { assert Path(g, best) && best[0] == n && Total(g, best) == v; }
  }

  // ---------- the active path and closed sets ----------

  /** Every callee of a member is a member or an assembly leaf. */
  ghost predicate Closed(g: Graph, known: set<Name>) {
    forall n, c :: n in known && CallsDirectly(g, n, c) ==> c in known || c in g.asm
  }

  lemma LeafDepth(g: Graph, n: Name, visiting: set<Name>)
    requires n in g.asm
    ensures Depth(g, n, visiting) == Some(g.asm[n])
  {
  }

  /** One level of the walk. */
  lemma DepthUnfold(g: Graph, n: Name, visiting: set<Name>)
    requires n !in g.asm
    ensures n !in g.frames || n in visiting || Edges(g, n).None? ==> Depth(g, n, visiting).None?
    ensures n in g.frames && n !in visiting && Edges(g, n).Some? ==>
      var below := Deepest(g, Edges(g, n).value, visiting + {n});
      Depth(g, n, visiting) == if below.None? then None else Some(g.frames[n] + below.value)
  {
    hide Edges, Deepest;
  }

  /** Inside a closed set that the active path avoids, the active path does not matter. */
  lemma {:induction false} ClosedIgnoresActive(g: Graph, known: set<Name>, n: Name, inner: set<Name>, active: set<Name>)
    requires Closed(g, known) && known !! active && (n in known || n in g.asm)
    requires Depth(g, n, inner).Some?
    ensures Depth(g, n, inner + active) == Depth(g, n, inner)
    decreases |g.frames.Keys - inner|, 0
  {
    hide Edges, Deepest, Depth;
    if n in g.asm {
      LeafDepth(g, n, inner);
      LeafDepth(g, n, inner + active);
    } else {
      DepthUnfold(g, n, inner);
      DepthUnfold(g, n, inner + active);
      Smaller(g.frames.Keys - (inner + {n}), g.frames.Keys - inner) by { assert n in g.frames.Keys - inner; }
      var cs := Edges(g, n).value;
      forall c | c in cs ensures c in known || c in g.asm { assert CallsDirectly(g, n, c); }
      ClosedListIgnoresActive(g, known, cs, inner + {n}, active);
      assert inner + {n} + active == inner + active + {n};
    }
  }

  lemma {:induction false} ClosedListIgnoresActive(g: Graph, known: set<Name>, cs: seq<Name>, inner: set<Name>,
    active: set<Name>)
    requires Closed(g, known) && known !! active && (forall c :: c in cs ==> c in known || c in g.asm)
    requires Deepest(g, cs, inner).Some?
    ensures Deepest(g, cs, inner + active) == Deepest(g, cs, inner)
    decreases |g.frames.Keys - inner|, 1 + |cs|
  {
    hide Depth;
    if cs != [] {
      ClosedIgnoresActive(g, known, cs[0], inner, active);
      ClosedListIgnoresActive(g, known, cs[1..], inner, active);
    }
  }

  /** A shorter active path keeps the answer. */
  lemma {:induction false} FewerActive(g: Graph, n: Name, fewer: set<Name>, more: set<Name>)
    requires fewer <= more && Depth(g, n, more).Some?
    ensures Depth(g, n, fewer) == Depth(g, n, more)
    decreases |g.frames.Keys - more|, 0
  {
    hide Edges, Deepest, Depth;
    if n in g.asm {
      LeafDepth(g, n, fewer);
      LeafDepth(g, n, more);
    } else {
      DepthUnfold(g, n, fewer);
      DepthUnfold(g, n, more);
      Smaller(g.frames.Keys - (more + {n}), g.frames.Keys - more) by { assert n in g.frames.Keys - more; }
      FewerActiveList(g, Edges(g, n).value, fewer + {n}, more + {n});
    }
  }

  lemma {:induction false} FewerActiveList(g: Graph, cs: seq<Name>, fewer: set<Name>, more: set<Name>)
    requires fewer <= more && Deepest(g, cs, more).Some?
    ensures Deepest(g, cs, fewer) == Deepest(g, cs, more)
    decreases |g.frames.Keys - more|, 1 + |cs|
  {
    hide Depth;
    if cs != [] {
      FewerActive(g, cs[0], fewer, more);
      FewerActiveList(g, cs[1..], fewer, more);
    }
  }
}
