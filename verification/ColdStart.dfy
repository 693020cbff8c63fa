/** src/trace/cold-start-tracer.ts on values: which spans a forest of module loads turns
    into, and in which order they start and finish. */
module ColdStart {
  import opened Wrappers
  import opened Sequences
  import opened RequireForest
  import opened LoadIntervals

  datatype Config = Config(minDuration: real, ignoreLibs: seq<string>)

  /** The calls made on the tracer. `None` as a time is `undefined` or `NaN`. */
  datatype Entry =
    | StartSpan(id: nat, parent: Option<nat>, name: string, resource: Option<string>,
                filename: string, at: Option<real>)
    | FinishSpan(id: nat, at: Option<real>)

  function Duration(t: Tree): real { t.end - t.start }

  function SpanName(filename: string): string {
    if "/opt/" <= filename then "aws.lambda.require_layer"
    else if "/var/runtime/" <= filename then "aws.lambda.require_runtime"
    else if '/' in filename then "aws.lambda.require"
    else "aws.lambda.require_core_module"
  }

  function StartOf(t: Tree, id: nat, parent: Option<nat>): Entry {
    StartSpan(id, parent, SpanName(t.filename), Some(t.id), t.filename, Some(t.start))
  }

  /** `traceTree` does not return early on this node. */
  predicate Traced(t: Tree, cfg: Config) {
    Duration(t) >= cfg.minDuration && t.id !in cfg.ignoreLibs
  }

  /** The children it goes on with: none if the node lasts exactly the minimum. */
  function Descended(t: Tree, cfg: Config): (r: seq<Tree>)
    ensures r == [] || r == t.children
  {
    if Duration(t) > cfg.minDuration then t.children else []
  }

  /** How many spans `traceTree` starts for these nodes. */
  function Size(trees: seq<Tree>, cfg: Config): nat {
    if trees == [] then 0
    else if !Traced(trees[0], cfg) then Size(trees[1..], cfg)
    else
      var below := Descended(trees[0], cfg);
      assert below == [] ==> below == trees[|trees|..];
      1 + Size(below, cfg) + Size(trees[1..], cfg)
  }

  /** What `traceTree`, called on each node in turn, does to the tracer. New spans are
      numbered from `next`. */
  function Emit(trees: seq<Tree>, parent: Option<nat>, next: nat, cfg: Config): seq<Entry> {
    if trees == [] then []
    else if !Traced(trees[0], cfg) then Emit(trees[1..], parent, next, cfg)
    else
      var t := trees[0];
      var below := Descended(t, cfg);
      assert below == [] ==> below == trees[|trees|..];
      [StartOf(t, next, parent)] + (Emit(below, Some(next), next + 1, cfg)
      + ([FinishSpan(next, Some(t.end))] + Emit(trees[1..], parent, next + 1 + Size(below, cfg), cfg)))
  }

  // ---------- pruning while descending is a filter on single nodes ----------

  /** A node of the forest, with its path and its proper ancestors, outermost first. */
  datatype Visit = Visit(path: seq<nat>, node: Tree, ancestors: seq<Tree>)

  /** Every node, in preorder; `first` is the number of the first tree among its siblings. */
  function Visits(trees: seq<Tree>, path: seq<nat>, first: nat, ancestors: seq<Tree>): seq<Visit> {
    if trees == [] then []
    else
      [Visit(path + [first], trees[0], ancestors)]
      + (Visits(trees[0].children, path + [first], 0, ancestors + [trees[0]])
         + Visits(trees[1..], path, first + 1, ancestors))
  }

  /** The filter: looks at one node and its root path only. */
  predicate Keep(v: Visit, cfg: Config) {
    && Duration(v.node) >= cfg.minDuration
    && v.node.id !in cfg.ignoreLibs
    && OpenPath(v.ancestors, cfg)
  }

  predicate OpenPath(ancestors: seq<Tree>, cfg: Config) {
    forall i :: 0 <= i < |ancestors| ==>
      ancestors[i].id !in cfg.ignoreLibs && Duration(ancestors[i]) != cfg.minDuration
  }

  function Kept(visits: seq<Visit>, cfg: Config): seq<Visit> {
    if visits == [] then []
    else (if Keep(visits[0], cfg) then [visits[0]] else []) + Kept(visits[1..], cfg)
  }

  /** A started span: where its node is, and the numbers of the span and of its parent. */
  datatype Span = Span(visit: Visit, id: nat, parent: Option<nat>)

  function Spans(trees: seq<Tree>, path: seq<nat>, first: nat, ancestors: seq<Tree>,
                 parent: Option<nat>, next: nat, cfg: Config): seq<Span> {
    if trees == [] then []
    else if !Traced(trees[0], cfg) then Spans(trees[1..], path, first + 1, ancestors, parent, next, cfg)
    else
      var t := trees[0];
      var below := Descended(t, cfg);
      assert below == [] ==> below == trees[|trees|..];
      [Span(Visit(path + [first], t, ancestors), next, parent)]
      + (Spans(below, path + [first], 0, ancestors + [t], Some(next), next + 1, cfg)
         + Spans(trees[1..], path, first + 1, ancestors, parent, next + 1 + Size(below, cfg), cfg))
  }

  function VisitsOf(spans: seq<Span>): (visits: seq<Visit>)
    ensures |visits| == |spans|
    ensures forall i :: 0 <= i < |spans| ==> visits[i] == spans[i].visit
  {
    seq(|spans|, i requires 0 <= i < |spans| => spans[i].visit)
  }

  function StartsOf(spans: seq<Span>): (starts: seq<Entry>)
    ensures |starts| == |spans|
    ensures forall i :: 0 <= i < |spans| ==>
              starts[i] == StartOf(spans[i].visit.node, spans[i].id, spans[i].parent)
  {
    seq(|spans|, i requires 0 <= i < |spans| => StartOf(spans[i].visit.node, spans[i].id, spans[i].parent))
  }

  function Starts(log: seq<Entry>): seq<Entry> {
    if log == [] then [] else (if log[0].StartSpan? then [log[0]] else []) + Starts(log[1..])
  }

  lemma {:induction false} KeptConcat(a: seq<Visit>, b: seq<Visit>, cfg: Config)
    ensures Kept(a + b, cfg) == Kept(a, cfg) + Kept(b, cfg)
  {
    if a == [] {
      assert a + b == b;
    } else {
      KeptConcat(a[1..], b, cfg);
      HeadAndTail(a, b);
      Regroup(Kept([a[0]], cfg), Kept(a[1..], cfg), Kept(b, cfg));
    }
  }

  lemma KeptNode(v: Visit, below: seq<Visit>, after: seq<Visit>, cfg: Config)
    ensures Kept([v] + (below + after), cfg)
         == (if Keep(v, cfg) then [v] else []) + (Kept(below, cfg) + Kept(after, cfg))
  {
    KeptConcat(below, after, cfg);
    assert ([v] + (below + after))[1..] == below + after;
  }

  lemma VisitsOfNode(s: Span, inner: seq<Span>, rest: seq<Span>)
    ensures VisitsOf([s] + (inner + rest)) == [s.visit] + (VisitsOf(inner) + VisitsOf(rest))
  {
  }

  lemma StartsOfNode(s: Span, inner: seq<Span>, rest: seq<Span>)
    ensures StartsOf([s] + (inner + rest))
         == [StartOf(s.visit.node, s.id, s.parent)] + (StartsOf(inner) + StartsOf(rest))
  {
  }

  /** Below an ignored node, or one that lasts exactly the minimum, nothing is kept. */
  lemma {:induction false} NothingBelowClosedPath(
    trees: seq<Tree>, path: seq<nat>, first: nat, ancestors: seq<Tree>, cfg: Config)
    requires !OpenPath(ancestors, cfg)
    ensures Kept(Visits(trees, path, first, ancestors), cfg) == []
    decreases trees
  {
    if trees != [] {
      var i :| 0 <= i < |ancestors|
                && !(ancestors[i].id !in cfg.ignoreLibs && Duration(ancestors[i]) != cfg.minDuration);
      var longer := ancestors + [trees[0]];
      assert longer[i] == ancestors[i];
      NothingBelowClosedPath(trees[0].children, path + [first], 0, longer, cfg);
      NothingBelowClosedPath(trees[1..], path, first + 1, ancestors, cfg);
      KeptConcat(Visits(trees[0].children, path + [first], 0, longer),
                 Visits(trees[1..], path, first + 1, ancestors), cfg);
    }
  }

  /** Below a node that is too short, nothing is long enough. */
  lemma {:induction false} NothingInShortInterval(
    trees: seq<Tree>, path: seq<nat>, first: nat, ancestors: seq<Tree>, lo: real, hi: real, cfg: Config)
    requires WellTimed(trees, lo, hi) && hi - lo < cfg.minDuration
    ensures Kept(Visits(trees, path, first, ancestors), cfg) == []
    decreases trees
  {
    if trees != [] {
      var t := trees[0];
      WellTimedMeans(trees, lo, hi, 0, 0);
      BoundsInOrder(trees[1..], t.end, hi);
      NothingInShortInterval(t.children, path + [first], 0, ancestors + [t], t.start, t.end, cfg);
      NothingInShortInterval(trees[1..], path, first + 1, ancestors, t.end, hi, cfg);
      KeptConcat(Visits(t.children, path + [first], 0, ancestors + [t]),
                 Visits(trees[1..], path, first + 1, ancestors), cfg);
    }
  }

  /** What is kept below `t` is what is kept below the children `traceTree` goes on with. */
  lemma KeptBelow(t: Tree, path: seq<nat>, ancestors: seq<Tree>, cfg: Config)
    requires WellTimed(t.children, t.start, t.end) && OpenPath(ancestors, cfg)
    ensures !Traced(t, cfg) || Duration(t) == cfg.minDuration ==>
              Kept(Visits(t.children, path, 0, ancestors + [t]), cfg) == []
    ensures Traced(t, cfg) && Duration(t) != cfg.minDuration ==> OpenPath(ancestors + [t], cfg)
  {
    var longer := ancestors + [t];
    assert longer[|ancestors|] == t;
    if Duration(t) < cfg.minDuration {
      NothingInShortInterval(t.children, path, 0, longer, t.start, t.end, cfg);
    } else if !Traced(t, cfg) || Duration(t) == cfg.minDuration {
      NothingBelowClosedPath(t.children, path, 0, longer, cfg);
    }
  }

  lemma {:induction false} SpansAreKept(
    trees: seq<Tree>, path: seq<nat>, first: nat, ancestors: seq<Tree>, parent: Option<nat>, next: nat,
    lo: real, hi: real, cfg: Config)
    requires WellTimed(trees, lo, hi) && OpenPath(ancestors, cfg)
    ensures VisitsOf(Spans(trees, path, first, ancestors, parent, next, cfg))
         == Kept(Visits(trees, path, first, ancestors), cfg)
    decreases trees
  {
    if trees != [] {
      var t := trees[0];
      var here, longer := path + [first], ancestors + [t];
      var below, after := Visits(t.children, here, 0, longer), Visits(trees[1..], path, first + 1, ancestors);
      KeptBelow(t, here, ancestors, cfg);
      KeptNode(Visit(here, t, ancestors), below, after, cfg);
      if !Traced(t, cfg) {
        SpansAreKept(trees[1..], path, first + 1, ancestors, parent, next, t.end, hi, cfg);
      } else {
        var down := Descended(t, cfg);
        var afterId := next + 1 + Size(down, cfg);
        if down != [] { SpansAreKept(down, here, 0, longer, Some(next), next + 1, t.start, t.end, cfg); }
        SpansAreKept(trees[1..], path, first + 1, ancestors, parent, afterId, t.end, hi, cfg);
        VisitsOfNode(Span(Visit(here, t, ancestors), next, parent),
                     Spans(down, here, 0, longer, Some(next), next + 1, cfg),
                     Spans(trees[1..], path, first + 1, ancestors, parent, afterId, cfg));
      }
    }
  }

  lemma {:induction false} StartsConcat(a: seq<Entry>, b: seq<Entry>)
    ensures Starts(a + b) == Starts(a) + Starts(b)
  {
    if a == [] {
      assert a + b == b;
    } else {
      var e, tail := a[0], a[1..];
      StartsConcat(tail, b);
      StartsFirst(e, tail);
      StartsFirst(e, tail + b);
      assert a + b == [e] + (tail + b) && a == [e] + tail;
      Regroup(if e.StartSpan? then [e] else [], Starts(tail), Starts(b));
    }
  }

  lemma StartsFirst(e: Entry, rest: seq<Entry>)
    ensures Starts([e] + rest) == (if e.StartSpan? then [e] else []) + Starts(rest)
  {
    assert ([e] + rest)[1..] == rest;
  }

  lemma StartsInNode(start: Entry, inner: seq<Entry>, finish: Entry, rest: seq<Entry>)
    requires start.StartSpan? && finish.FinishSpan?
    ensures Starts([start] + (inner + ([finish] + rest))) == [start] + (Starts(inner) + Starts(rest))
  {
    StartsConcat(inner, [finish] + rest);
    assert ([finish] + rest)[1..] == rest;
    assert ([start] + (inner + ([finish] + rest)))[1..] == inner + ([finish] + rest);
  }

  lemma {:induction false} EmitStartsSpans(
    trees: seq<Tree>, path: seq<nat>, first: nat, ancestors: seq<Tree>, parent: Option<nat>, next: nat, cfg: Config)
    ensures Starts(Emit(trees, parent, next, cfg))
         == StartsOf(Spans(trees, path, first, ancestors, parent, next, cfg))
    decreases trees
  {
    if trees != [] {
      var t := trees[0];
      if !Traced(t, cfg) {
        EmitStartsSpans(trees[1..], path, first + 1, ancestors, parent, next, cfg);
      } else {
        var here, longer := path + [first], ancestors + [t];
        var down := Descended(t, cfg);
        assert down == [] ==> down == trees[|trees|..];
        var afterId := next + 1 + Size(down, cfg);
        EmitStartsSpans(down, here, 0, longer, Some(next), next + 1, cfg);
        EmitStartsSpans(trees[1..], path, first + 1, ancestors, parent, afterId, cfg);
        StartsInNode(StartOf(t, next, parent), Emit(down, Some(next), next + 1, cfg),
                     FinishSpan(next, Some(t.end)), Emit(trees[1..], parent, afterId, cfg));
        StartsOfNode(Span(Visit(here, t, ancestors), next, parent),
                     Spans(down, here, 0, longer, Some(next), next + 1, cfg),
                     Spans(trees[1..], path, first + 1, ancestors, parent, afterId, cfg));
      }
    }
  }

  /** Span `i` has number `next + i`; it is a root's span with the given parent, or its
      parent is the span `j`, started before it for its node's direct parent. */
  predicate Parented(spans: seq<Span>, i: nat, j: nat, path: seq<nat>, parent: Option<nat>, next: nat)
    requires i < |spans|
  {
    var p := spans[i].visit.path;
    && spans[i].id == next + i && |p| > |path| && p[..|path|] == path
    && (|p| == |path| + 1 ==> spans[i].parent == parent)
    && (|p| > |path| + 1 ==>
          j < i && spans[j].visit.path == p[..|p| - 1] && spans[i].parent == Some(spans[j].id))
  }

  lemma ParentedTop(top: Span, first: nat, others: seq<Span>, path: seq<nat>, parent: Option<nat>)
    requires top.visit.path == path + [first] && top.parent == parent
    ensures Parented([top] + others, 0, 0, path, parent, top.id)
  {
  }

  lemma ParentedBelow(top: Span, first: nat, inner: seq<Span>, rest: seq<Span>, i: nat, j: nat,
                      path: seq<nat>, parent: Option<nat>) returns (above: nat)
    requires top.visit.path == path + [first]
    requires i < |inner| && Parented(inner, i, j, path + [first], Some(top.id), top.id + 1)
    ensures Parented([top] + (inner + rest), i + 1, above, path, parent, top.id)
  {
    var spans, p := [top] + (inner + rest), inner[i].visit.path;
    assert spans[i + 1] == inner[i] && spans[0] == top;
    LongerPrefix(p, path, first);
    if |p| == |path| + 2 {
      above := 0;
    } else {
      above := j + 1;
      assert spans[above] == inner[j];
    }
  }

  lemma ParentedAfter(top: Span, inner: seq<Span>, rest: seq<Span>, i: nat, j: nat,
                      path: seq<nat>, parent: Option<nat>, next: nat)
    requires i < |rest| && Parented(rest, i, j, path, parent, next + 1 + |inner|)
    ensures Parented([top] + (inner + rest), i + 1 + |inner|, j + 1 + |inner|, path, parent, next)
  {
    var spans := [top] + (inner + rest);
    assert spans[i + 1 + |inner|] == rest[i];
    if |rest[i].visit.path| > |path| + 1 {
      assert spans[j + 1 + |inner|] == rest[j];
    }
  }

  ghost predicate HasParent(spans: seq<Span>, i: nat, path: seq<nat>, parent: Option<nat>, next: nat)
    requires i < |spans|
  {
    exists j: nat :: Parented(spans, i, j, path, parent, next)
  }

  /** The numbers of the spans are consecutive, a root's span has the given parent, and any
      other span has the span of its node's direct parent, which was started before it. */
  ghost predicate AllParented(spans: seq<Span>, path: seq<nat>, parent: Option<nat>, next: nat) {
    forall i: nat :: i < |spans| ==> HasParent(spans, i, path, parent, next)
  }

  lemma AllParentedNode(top: Span, first: nat, inner: seq<Span>, rest: seq<Span>, path: seq<nat>, parent: Option<nat>)
    requires top.visit.path == path + [first] && top.parent == parent
    requires AllParented(inner, path + [first], Some(top.id), top.id + 1)
    requires AllParented(rest, path, parent, top.id + 1 + |inner|)
    ensures AllParented([top] + (inner + rest), path, parent, top.id)
  {
    var spans := [top] + (inner + rest);
    forall i: nat | i < |spans| ensures HasParent(spans, i, path, parent, top.id) {
      if i == 0 {
        ParentedTop(top, first, inner + rest, path, parent);
      } else if i <= |inner| {
        assert HasParent(inner, i - 1, path + [first], Some(top.id), top.id + 1);
        var j: nat :| Parented(inner, i - 1, j, path + [first], Some(top.id), top.id + 1);
        var above := ParentedBelow(top, first, inner, rest, i - 1, j, path, parent);
      } else {
        var k := i - 1 - |inner|;
        assert HasParent(rest, k, path, parent, top.id + 1 + |inner|);
        var j: nat :| Parented(rest, k, j, path, parent, top.id + 1 + |inner|);
        ParentedAfter(top, inner, rest, k, j, path, parent, top.id);
      }
    }
  }

  lemma {:induction false} SpanParents(
    trees: seq<Tree>, path: seq<nat>, first: nat, ancestors: seq<Tree>, parent: Option<nat>, next: nat, cfg: Config)
    ensures AllParented(Spans(trees, path, first, ancestors, parent, next, cfg), path, parent, next)
    decreases trees
  {
    if trees != [] {
      var t, here, longer := trees[0], path + [first], ancestors + [trees[0]];
      if !Traced(t, cfg) {
        SpanParents(trees[1..], path, first + 1, ancestors, parent, next, cfg);
      } else {
        var down := Descended(t, cfg);
        assert down == [] ==> down == trees[|trees|..];
        var afterId := next + 1 + Size(down, cfg);
        SpansAreSized(down, here, 0, longer, Some(next), next + 1, cfg);
        SpanParents(down, here, 0, longer, Some(next), next + 1, cfg);
        SpanParents(trees[1..], path, first + 1, ancestors, parent, afterId, cfg);
        AllParentedNode(Span(Visit(here, t, ancestors), next, parent), first,
                        Spans(down, here, 0, longer, Some(next), next + 1, cfg),
                        Spans(trees[1..], path, first + 1, ancestors, parent, afterId, cfg), path, parent);
      }
    }
  }

  lemma LongerPrefix(p: seq<nat>, path: seq<nat>, first: nat)
    requires |p| > |path| && p[..|path| + 1] == path + [first]
    ensures p[..|path|] == path
  {
    assert p[..|path|] == p[..|path| + 1][..|path|];
  }

  lemma {:induction false} SpansAreSized(
    trees: seq<Tree>, path: seq<nat>, first: nat, ancestors: seq<Tree>, parent: Option<nat>, next: nat, cfg: Config)
    ensures |Spans(trees, path, first, ancestors, parent, next, cfg)| == Size(trees, cfg)
    decreases trees
  {
    if trees != [] {
      var down := Descended(trees[0], cfg);
      assert down == [] ==> down == trees[|trees|..];
      SpansAreSized(down, path + [first], 0, ancestors + [trees[0]], Some(next), next + 1, cfg);
      SpansAreSized(trees[1..], path, first + 1, ancestors, parent, next, cfg);
      SpansAreSized(trees[1..], path, first + 1, ancestors, parent, next + 1 + Size(down, cfg), cfg);
    }
  }

  /** Early pruning equals a filter: on a forest of nested intervals, the spans started are,
      in preorder, those of the nodes that pass `Keep`. */
  lemma PruningIsAFilter(roots: seq<Tree>, parent: Option<nat>, next: nat, lo: real, hi: real, cfg: Config)
    requires WellTimed(roots, lo, hi)
    ensures var spans := Spans(roots, [], 0, [], parent, next, cfg);
            && VisitsOf(spans) == Kept(Visits(roots, [], 0, []), cfg)
            && StartsOf(spans) == Starts(Emit(roots, parent, next, cfg))
  {
    SpansAreKept(roots, [], 0, [], parent, next, lo, hi, cfg);
    EmitStartsSpans(roots, [], 0, [], parent, next, cfg);
  }

  // ---------- what the filter looks at ----------

  lemma {:induction false} KeptMembers(visits: seq<Visit>, cfg: Config, v: Visit)
    ensures v in Kept(visits, cfg) <==> v in visits && Keep(v, cfg)
  {
    if visits != [] {
      KeptMembers(visits[1..], cfg, v);
      assert visits == [visits[0]] + visits[1..];
    }
  }

  /** A span is started for a node exactly if the node lasts at least the minimum, neither
      its id nor that of a node above it is ignored, and no node above it lasts exactly the
      minimum. */
  lemma SpanStartedIff(roots: seq<Tree>, parent: Option<nat>, next: nat, lo: real, hi: real, cfg: Config, v: Visit)
    requires WellTimed(roots, lo, hi)
    ensures v in VisitsOf(Spans(roots, [], 0, [], parent, next, cfg)) <==>
              && v in Visits(roots, [], 0, [])
              && v.node.end - v.node.start >= cfg.minDuration && v.node.id !in cfg.ignoreLibs
              && (forall i :: 0 <= i < |v.ancestors| ==>
                    && v.ancestors[i].id !in cfg.ignoreLibs
                    && v.ancestors[i].end - v.ancestors[i].start != cfg.minDuration)
  {
    PruningIsAFilter(roots, parent, next, lo, hi, cfg);
    KeptMembers(Visits(roots, [], 0, []), cfg, v);
  }

  function LoadOf(v: Visit): Event { Load(v.node.id, v.node.filename, v.node.start) }

  lemma MapConcat(a: seq<Visit>, b: seq<Visit>)
    ensures Map(LoadOf, a + b) == Map(LoadOf, a) + Map(LoadOf, b)
  {
  }

  /** Every node of the forest is visited, once and in preorder. */
  lemma {:induction false} VisitsArePreorder(trees: seq<Tree>, path: seq<nat>, first: nat, ancestors: seq<Tree>)
    ensures Map(LoadOf, Visits(trees, path, first, ancestors)) == Preorder(trees)
    decreases trees
  {
    if trees != [] {
      var v := Visit(path + [first], trees[0], ancestors);
      var below := Visits(trees[0].children, path + [first], 0, ancestors + [trees[0]]);
      var after := Visits(trees[1..], path, first + 1, ancestors);
      VisitsArePreorder(trees[0].children, path + [first], 0, ancestors + [trees[0]]);
      VisitsArePreorder(trees[1..], path, first + 1, ancestors);
      MapConcat([v], below + after);
      MapConcat(below, after);
    }
  }

  /** Following the path through the forest, past these ancestors, leads to the node. */
  predicate LeadsTo(trees: seq<Tree>, first: nat, path: seq<nat>, ancestors: seq<Tree>, node: Tree)
    decreases |path|
  {
    && path != [] && first <= path[0] < first + |trees|
    && var t := trees[path[0] - first];
       if |path| == 1 then t == node && ancestors == []
       else ancestors != [] && ancestors[0] == t && LeadsTo(t.children, 0, path[1..], ancestors[1..], node)
  }

  lemma LeadsToChild(trees: seq<Tree>, first: nat, path: seq<nat>, ancestors: seq<Tree>, node: Tree)
    requires trees != [] && LeadsTo(trees[0].children, 0, path, ancestors, node)
    ensures LeadsTo(trees, first, [first] + path, [trees[0]] + ancestors, node)
  {
    assert ([first] + path)[1..] == path && ([trees[0]] + ancestors)[1..] == ancestors;
  }

  lemma LeadsToSibling(trees: seq<Tree>, first: nat, path: seq<nat>, ancestors: seq<Tree>, node: Tree)
    requires trees != [] && LeadsTo(trees[1..], first + 1, path, ancestors, node)
    ensures LeadsTo(trees, first, path, ancestors, node)
  {
  }

  ghost predicate IsVisitOf(v: Visit, trees: seq<Tree>, path: seq<nat>, first: nat, ancestors: seq<Tree>) {
    && path <= v.path && ancestors <= v.ancestors
    && LeadsTo(trees, first, v.path[|path|..], v.ancestors[|ancestors|..], v.node)
  }

  lemma VisitOfChild(v: Visit, trees: seq<Tree>, path: seq<nat>, first: nat, ancestors: seq<Tree>)
    requires trees != [] && IsVisitOf(v, trees[0].children, path + [first], 0, ancestors + [trees[0]])
    ensures IsVisitOf(v, trees, path, first, ancestors)
  {
    var p, a := v.path[|path| + 1..], v.ancestors[|ancestors| + 1..];
    LeadsToChild(trees, first, p, a, v.node);
    assert v.path[|path|..] == [first] + p && v.ancestors[|ancestors|..] == [trees[0]] + a;
  }

  /** What a visit says of its node's place is true. */
  lemma {:induction false} VisitsTellThePlace(
    trees: seq<Tree>, path: seq<nat>, first: nat, ancestors: seq<Tree>, v: Visit)
    requires v in Visits(trees, path, first, ancestors)
    ensures IsVisitOf(v, trees, path, first, ancestors)
    decreases trees
  {
    var below := Visits(trees[0].children, path + [first], 0, ancestors + [trees[0]]);
    if v == Visit(path + [first], trees[0], ancestors) {
      assert v.path[|path|..] == [first] && v.ancestors[|ancestors|..] == [];
    } else if v in below {
      VisitsTellThePlace(trees[0].children, path + [first], 0, ancestors + [trees[0]], v);
      VisitOfChild(v, trees, path, first, ancestors);
    } else {
      VisitsTellThePlace(trees[1..], path, first + 1, ancestors, v);
      LeadsToSibling(trees, first, v.path[|path|..], v.ancestors[|ancestors|..], v.node);
    }
  }

  /** The name of a span, by where the module's file is. */
  lemma SpanNames(filename: string)
    ensures "/opt/" <= filename <==> SpanName(filename) == "aws.lambda.require_layer"
    ensures "/var/runtime/" <= filename <==> SpanName(filename) == "aws.lambda.require_runtime"
    ensures '/' !in filename <==> SpanName(filename) == "aws.lambda.require_core_module"
    ensures SpanName(filename) in ["aws.lambda.require_layer", "aws.lambda.require_runtime",
                                   "aws.lambda.require_core_module", "aws.lambda.require"]
  {
    assert "aws.lambda.require_layer"[18] == '_' && "aws.lambda.require_layer"[19] == 'l';
    assert "aws.lambda.require_runtime"[19] == 'r';
    assert "aws.lambda.require_core_module"[19] == 'c';
    if "/opt/" <= filename { assert filename[0] == '/' && filename[1] == 'o'; }
    if "/var/runtime/" <= filename { assert filename[0] == '/' && filename[1] == 'v'; }
  }

  // ---------- the log is well bracketed and in time order ----------

  /** Replays a log against a stack of open spans: a new span must have the top of the
      stack, or else `target`, as its parent, and only the top may finish. */
  function Replay(log: seq<Entry>, open: seq<nat>, target: Option<nat>): Option<seq<nat>> {
    if log == [] then Some(open)
    else match log[0]
      case StartSpan(id, parent, _, _, _, _) =>
        if parent == Top(open, target) then Replay(log[1..], open + [id], target) else None
      case FinishSpan(id, _) =>
        if open != [] && open[|open| - 1] == id then Replay(log[1..], open[..|open| - 1], target) else None
  }

  function Top(open: seq<nat>, target: Option<nat>): Option<nat> {
    if open == [] then target else Some(open[|open| - 1])
  }

  lemma {:induction false} ReplayConcat(a: seq<Entry>, b: seq<Entry>, open: seq<nat>, target: Option<nat>)
    requires Replay(a, open, target).Some?
    ensures Replay(a + b, open, target) == Replay(b, Replay(a, open, target).value, target)
  {
    if a == [] {
      assert a + b == b;
    } else {
      assert (a + b)[1..] == a[1..] + b;
      match a[0]
      case StartSpan(id, _, _, _, _, _) => ReplayConcat(a[1..], b, open + [id], target);
      case FinishSpan(_, _) => ReplayConcat(a[1..], b, open[..|open| - 1], target);
    }
  }

  lemma ReplayStart(start: Entry, rest: seq<Entry>, open: seq<nat>, target: Option<nat>)
    requires start.StartSpan? && start.parent == Top(open, target)
    ensures Replay([start] + rest, open, target) == Replay(rest, open + [start.id], target)
  {
    assert ([start] + rest)[1..] == rest;
  }

  lemma ReplayFinish(finish: Entry, rest: seq<Entry>, open: seq<nat>, target: Option<nat>)
    requires finish.FinishSpan?
    ensures Replay([finish] + rest, open + [finish.id], target) == Replay(rest, open, target)
  {
    assert ([finish] + rest)[1..] == rest;
    assert (open + [finish.id])[..|open|] == open;
  }

  /** Every span is finished exactly once, after its children and before its next sibling. */
  lemma {:induction false} LogIsBracketed(trees: seq<Tree>, next: nat, cfg: Config, open: seq<nat>, target: Option<nat>)
    ensures Replay(Emit(trees, Top(open, target), next, cfg), open, target) == Some(open)
    decreases trees
  {
    if trees != [] {
      var t, parent := trees[0], Top(open, target);
      if !Traced(t, cfg) {
        LogIsBracketed(trees[1..], next, cfg, open, target);
      } else {
        var down := Descended(t, cfg);
        assert down == [] ==> down == trees[|trees|..];
        var afterId := next + 1 + Size(down, cfg);
        var inner, rest := Emit(down, Some(next), next + 1, cfg), Emit(trees[1..], parent, afterId, cfg);
        var finish := FinishSpan(next, Some(t.end));
        LogIsBracketed(down, next + 1, cfg, open + [next], target);
        LogIsBracketed(trees[1..], afterId, cfg, open, target);
        ReplayStart(StartOf(t, next, parent), inner + ([finish] + rest), open, target);
        ReplayConcat(inner, [finish] + rest, open + [next], target);
        ReplayFinish(finish, rest, open, target);
      }
    }
  }

  predicate Chronological(log: seq<Entry>, lo: real, hi: real) {
    if log == [] then lo <= hi
    else log[0].at.Some? && lo <= log[0].at.value && Chronological(log[1..], log[0].at.value, hi)
  }

  lemma {:induction false} ChronologicalConcat(a: seq<Entry>, b: seq<Entry>, lo: real, mid: real, hi: real)
    requires Chronological(a, lo, mid) && Chronological(b, mid, hi)
    ensures Chronological(a + b, lo, hi)
  {
    if a == [] {
      assert a + b == b;
      if b != [] { assert Chronological(b[1..], b[0].at.value, hi); }
    } else {
      ChronologicalConcat(a[1..], b, a[0].at.value, mid, hi);
      assert (a + b)[1..] == a[1..] + b;
    }
  }

  lemma ChronologicalOne(e: Entry, rest: seq<Entry>, lo: real, hi: real)
    requires e.at.Some? && lo <= e.at.value && Chronological(rest, e.at.value, hi)
    ensures Chronological([e] + rest, lo, hi)
  {
    assert ([e] + rest)[1..] == rest;
  }

  /** Starts and finishes carry non-decreasing times. With the bracketing, a span lies inside
      its parent, and siblings do not overlap. */
  lemma {:induction false} LogIsChronological(
    trees: seq<Tree>, parent: Option<nat>, next: nat, lo: real, hi: real, cfg: Config)
    requires WellTimed(trees, lo, hi)
    ensures Chronological(Emit(trees, parent, next, cfg), lo, hi)
    decreases trees
  {
    if trees != [] {
      var t := trees[0];
      WellTimedMeans(trees, lo, hi, 0, 0);
      if !Traced(t, cfg) {
        LogIsChronological(trees[1..], parent, next, t.end, hi, cfg);
        EarlierBound(Emit(trees[1..], parent, next, cfg), t.end, lo, hi);
      } else {
        var down := Descended(t, cfg);
        var afterId := next + 1 + Size(down, cfg);
        var inner, rest := Emit(down, Some(next), next + 1, cfg), Emit(trees[1..], parent, afterId, cfg);
        var finish := FinishSpan(next, Some(t.end));
        if down != [] { LogIsChronological(down, Some(next), next + 1, t.start, t.end, cfg); }
        LogIsChronological(trees[1..], parent, afterId, t.end, hi, cfg);
        ChronologicalOne(finish, rest, t.end, hi);
        ChronologicalConcat(inner, [finish] + rest, t.start, t.end, hi);
        ChronologicalOne(StartOf(t, next, parent), inner + ([finish] + rest), lo, hi);
      }
    }
  }

  lemma EarlierBound(log: seq<Entry>, lo: real, earlier: real, hi: real)
    requires Chronological(log, lo, hi) && earlier <= lo
    ensures Chronological(log, earlier, hi)
  {
  }

  // ---------- the log and the load events ----------

  /** The forest that is left. */
  function Prune(trees: seq<Tree>, cfg: Config): seq<Tree> {
    if trees == [] then []
    else if !Traced(trees[0], cfg) then Prune(trees[1..], cfg)
    else
      var below := Descended(trees[0], cfg);
      assert below == [] ==> below == trees[|trees|..];
      [trees[0].(children := Prune(below, cfg))] + Prune(trees[1..], cfg)
  }

  predicate HasEvent(e: Entry) {
    e.at.Some? && (e.StartSpan? ==> e.resource.Some?)
  }

  function EventOf(e: Entry): Event
    requires HasEvent(e)
  {
    match e
    case StartSpan(_, _, _, resource, filename, at) => Load(resource.value, filename, at.value)
    case FinishSpan(_, at) => Loaded(at.value)
  }

  predicate HasEvents(log: seq<Entry>) {
    forall i :: 0 <= i < |log| ==> HasEvent(log[i])
  }

  function EventsOf(log: seq<Entry>): seq<Event>
    requires HasEvents(log)
  {
    seq(|log|, i requires 0 <= i < |log| => EventOf(log[i]))
  }

  lemma EventsOfNode(start: Entry, inner: seq<Entry>, finish: Entry, rest: seq<Entry>)
    requires HasEvents(inner) && HasEvents(rest) && HasEvent(start) && HasEvent(finish)
    ensures var log := [start] + (inner + ([finish] + rest));
            && HasEvents(log)
            && EventsOf(log) == [EventOf(start)] + (EventsOf(inner) + ([EventOf(finish)] + EventsOf(rest)))
  {
  }

  lemma RenderFirst(t: Tree, rest: seq<Tree>)
    ensures Render([t] + rest)
         == [Load(t.id, t.filename, t.start)] + (Render(t.children) + ([Loaded(t.end)] + Render(rest)))
  {
    assert ([t] + rest)[1..] == rest;
  }

  /** Read as load events, the log is the rendering of the pruned forest: each remaining node
      starts one span at its start and finishes it at its end. */
  lemma {:induction false} LogRendersPrunedForest(trees: seq<Tree>, parent: Option<nat>, next: nat, cfg: Config)
    ensures HasEvents(Emit(trees, parent, next, cfg))
    ensures EventsOf(Emit(trees, parent, next, cfg)) == Render(Prune(trees, cfg))
    decreases trees
  {
    if trees != [] {
      var t := trees[0];
      if !Traced(t, cfg) {
        LogRendersPrunedForest(trees[1..], parent, next, cfg);
      } else {
        var down := Descended(t, cfg);
        assert down == [] ==> down == trees[|trees|..];
        var afterId := next + 1 + Size(down, cfg);
        LogRendersPrunedForest(down, Some(next), next + 1, cfg);
        LogRendersPrunedForest(trees[1..], parent, afterId, cfg);
        EventsOfNode(StartOf(t, next, parent), Emit(down, Some(next), next + 1, cfg),
                     FinishSpan(next, Some(t.end)), Emit(trees[1..], parent, afterId, cfg));
        RenderFirst(t.(children := Prune(down, cfg)), Prune(trees[1..], cfg));
      }
    }
  }

  // ---------- from load events to spans ----------

  /** The spans in the log are those of the filter, in preorder, below their parents' spans;
      the log is bracketed, in time order, and lies between `origin` and `now`; and it starts
      and finishes each node of the pruned forest at the node's own times. */
  ghost predicate IsTraceOf(
    log: seq<Entry>, roots: seq<Tree>, target: Option<nat>, next: nat, cfg: Config, origin: real, now: real)
  {
    var spans := Spans(roots, [], 0, [], target, next, cfg);
    && VisitsOf(spans) == Kept(Visits(roots, [], 0, []), cfg) && StartsOf(spans) == Starts(log)
    && AllParented(spans, [], target, next)
    && Replay(log, [], target) == Some([])
    && HasEvents(log) && EventsOf(log) == Render(Prune(roots, cfg))
    && exists lo :: origin <= lo && Chronological(log, lo, now)
  }

  /** Whatever modules were loaded and however often the tree was cleared, this holds of the
      spans of the remaining roots, and nothing in the log is later than the last event. */
  lemma SpansOfAnyRun(events: seq<Event>, origin: real, target: Option<nat>, next: nat, cfg: Config)
    requires Clocked(events, origin)
    ensures var roots := Run(EMPTY, events).roots;
            IsTraceOf(Emit(roots, target, next, cfg), roots, target, next, cfg, origin, LastTime(events, origin))
  {
    var roots := Run(EMPTY, events).roots;
    var lo, hi := CurrentRootsTimed(events, origin);
    PruningIsAFilter(roots, target, next, lo, hi, cfg);
    SpanParents(roots, [], 0, [], target, next, cfg);
    LogIsBracketed(roots, next, cfg, [], target);
    LogIsChronological(roots, target, next, lo, hi, cfg);
    LogRendersPrunedForest(roots, target, next, cfg);
  }

  // ---------- the load span ----------

  function Min(a: real, b: real): real { if a <= b then a else b }

  /** From the first root's start to the last root's end, cut at the current span's start. */
  function LoadSpanEnd(roots: seq<Tree>, currentSpanStart: real): real
    requires roots != []
  {
    Min(roots[|roots| - 1].end, currentSpanStart)
  }

  /** The load span covers every root exactly when the last root ends no later than the
      current span starts. */
  lemma LoadSpanCoversRoots(roots: seq<Tree>, lo: real, hi: real, currentSpanStart: real)
    requires roots != [] && WellTimed(roots, lo, hi)
    ensures (forall i :: 0 <= i < |roots| ==>
               roots[0].start <= roots[i].start && roots[i].end <= LoadSpanEnd(roots, currentSpanStart))
            <==> roots[|roots| - 1].end <= currentSpanStart
    ensures LoadSpanEnd(roots, currentSpanStart)
         == if roots[|roots| - 1].end <= currentSpanStart then roots[|roots| - 1].end else currentSpanStart
  {
    forall i | 0 <= i < |roots|
      ensures roots[0].start <= roots[i].start && roots[i].end <= roots[|roots| - 1].end
    {
      WellTimedMeans(roots, lo, hi, 0, i);
      WellTimedMeans(roots, lo, hi, i, |roots| - 1);
      WellTimedMeans(roots, lo, hi, i, i);
    }
  }

  lemma {:induction false} EmitConcat(a: seq<Tree>, b: seq<Tree>, parent: Option<nat>, next: nat, cfg: Config)
    ensures Size(a + b, cfg) == Size(a, cfg) + Size(b, cfg)
    ensures Emit(a + b, parent, next, cfg) == Emit(a, parent, next, cfg) + Emit(b, parent, next + Size(a, cfg), cfg)
  {
    if a == [] {
      assert a + b == b;
    } else {
      var t := a[0];
      assert (a + b)[0] == t && (a + b)[1..] == a[1..] + b;
      if !Traced(t, cfg) {
        EmitConcat(a[1..], b, parent, next, cfg);
      } else {
        var down := Descended(t, cfg);
        var afterId := next + 1 + Size(down, cfg);
        EmitConcat(a[1..], b, parent, afterId, cfg);
        RegroupFive([StartOf(t, next, parent)], Emit(down, Some(next), next + 1, cfg), [FinishSpan(next, Some(t.end))],
                    Emit(a[1..], parent, afterId, cfg), Emit(b, parent, next + Size(a, cfg), cfg));
      }
    }
  }
}
