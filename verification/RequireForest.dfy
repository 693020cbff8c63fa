/** What src/runtime/require-tracer.ts builds, on values: nested module loads, seen as a
    stream of start and end events, become an ordered forest of intervals. */
module RequireForest {
  import opened Sequences

  /** A closed `RequireNode`. */
  datatype Tree = Node(id: string, filename: string, start: real, end: real, children: seq<Tree>)

  /** A node still on the stack; `closed` are its finished children. */
  datatype Frame = Frame(id: string, filename: string, start: real, closed: seq<Tree>)

  datatype Event =
    | Load(id: string, filename: string, at: real) // dd-trace:moduleLoadStart
    | Loaded(at: real)                             // dd-trace:moduleLoadEnd
    | Clear                                        // clearTraceTree()

  datatype State = State(
    roots: seq<Tree>, stack: seq<Frame>,
    taken: seq<Tree>) // history: the roots that clears have dropped

  const EMPTY := State([], [], [])

  function Close(top: Frame, at: real): Tree {
    Node(top.id, top.filename, top.start, at, top.closed)
  }

  function Pop(s: State, at: real): State
    requires s.stack != []
  {
    var n := |s.stack| - 1;
    var node := Close(s.stack[n], at);
    if n == 0 then s.(roots := s.roots + [node], stack := [])
    else s.(stack := s.stack[..n - 1] + [s.stack[n - 1].(closed := s.stack[n - 1].closed + [node])])
  }

  function Next(s: State, e: Event): State {
    match e
    case Load(id, filename, at) => s.(stack := s.stack + [Frame(id, filename, at, [])])
    case Loaded(at) => if s.stack == [] then s else Pop(s, at)
    case Clear => s.(roots := [], taken := s.taken + s.roots)
  }

  function Run(s: State, events: seq<Event>): State {
    if events == [] then s else Next(Run(s, events[..|events| - 1]), events[|events| - 1])
  }

  lemma {:induction false} RunConcat(s: State, a: seq<Event>, b: seq<Event>)
    ensures Run(s, a + b) == Run(Run(s, a), b)
  {
    if b == [] {
      assert a + b == a;
    } else {
      RunConcat(s, a, b[..|b| - 1]);
      assert (a + b)[..|a + b| - 1] == a + b[..|b| - 1];
    }
  }

  // ---------- rendering a forest back to events ----------

  function Render(trees: seq<Tree>): seq<Event> {
    if trees == [] then []
    else
      var t := trees[0];
      [Load(t.id, t.filename, t.start)] + (Render(t.children) + ([Loaded(t.end)] + Render(trees[1..])))
  }

  function RenderStack(stack: seq<Frame>): seq<Event> {
    if stack == [] then []
    else
      var top := stack[|stack| - 1];
      RenderStack(stack[..|stack| - 1]) + ([Load(top.id, top.filename, top.start)] + Render(top.closed))
  }

  /** How many loads are open after `events`. */
  function Depth(events: seq<Event>): nat {
    if events == [] then 0
    else
      var before := Depth(events[..|events| - 1]);
      match events[|events| - 1]
      case Load(_, _, _) => before + 1
      case Loaded(_) => if before == 0 then 0 else before - 1
      case Clear => before
  }

  /** `events` without clears and without the ends that close nothing. */
  function Matched(events: seq<Event>): seq<Event> {
    if events == [] then []
    else
      var init, last := events[..|events| - 1], events[|events| - 1];
      Matched(init) + if last.Clear? || (last.Loaded? && Depth(init) == 0) then [] else [last]
  }

  lemma {:induction false} RenderConcat(a: seq<Tree>, b: seq<Tree>)
    ensures Render(a + b) == Render(a) + Render(b)
  {
    if a == [] {
      assert a + b == b;
    } else {
      RenderConcat(a[1..], b);
      assert (a + b)[0] == a[0] && (a + b)[1..] == a[1..] + b;
      RegroupFive([Load(a[0].id, a[0].filename, a[0].start)], Render(a[0].children), [Loaded(a[0].end)],
               Render(a[1..]), Render(b));
    }
  }

  lemma RenderOne(t: Tree)
    ensures Render([t]) == [Load(t.id, t.filename, t.start)] + Render(t.children) + [Loaded(t.end)]
  {
    assert Render([t][1..]) == [];
  }

  /** What the whole history of a state looks like as events. */
  function History(s: State): seq<Event> {
    Render(s.taken + s.roots) + RenderStack(s.stack)
  }

  lemma LoadExtendsHistory(s: State, id: string, filename: string, at: real)
    ensures History(Next(s, Load(id, filename, at))) == History(s) + [Load(id, filename, at)]
  {
    var stack := s.stack + [Frame(id, filename, at, [])];
    assert stack[..|stack| - 1] == s.stack;
    assert RenderStack(stack) == RenderStack(s.stack) + [Load(id, filename, at)];
  }

  lemma PopRootExtendsHistory(s: State, at: real)
    requires |s.stack| == 1
    ensures History(Pop(s, at)) == History(s) + [Loaded(at)]
  {
    var top := s.stack[0];
    var node := Close(top, at);
    RenderOne(node);
    RenderConcat(s.taken + s.roots, [node]);
    assert s.taken + (s.roots + [node]) == s.taken + s.roots + [node];
    assert s.stack[..0] == [];
    assert RenderStack(s.stack) == [Load(top.id, top.filename, top.start)] + Render(top.closed);
  }

  lemma RenderStackTwo(stack: seq<Frame>, below: Frame, top: Frame)
    ensures RenderStack(stack + [below, top])
         == RenderStack(stack + [below]) + ([Load(top.id, top.filename, top.start)] + Render(top.closed))
  {
    assert (stack + [below, top])[..|stack| + 1] == stack + [below];
  }

  lemma RenderStackOne(stack: seq<Frame>, top: Frame)
    ensures RenderStack(stack + [top])
         == RenderStack(stack) + ([Load(top.id, top.filename, top.start)] + Render(top.closed))
  {
    assert (stack + [top])[..|stack|] == stack;
  }

  lemma PopChildExtendsStack(stack: seq<Frame>, below: Frame, top: Frame, at: real)
    ensures RenderStack(stack + [below.(closed := below.closed + [Close(top, at)])])
         == RenderStack(stack + [below, top]) + [Loaded(at)]
  {
    var node := Close(top, at);
    RenderOne(node);
    RenderConcat(below.closed, [node]);
    RenderStackTwo(stack, below, top);
    RenderStackOne(stack, below);
    RenderStackOne(stack, below.(closed := below.closed + [node]));
    RegroupSix(RenderStack(stack), [Load(below.id, below.filename, below.start)], Render(below.closed),
               [Load(top.id, top.filename, top.start)], Render(top.closed), [Loaded(at)]);
  }

  lemma RegroupSix<T>(a: seq<T>, b: seq<T>, c: seq<T>, d: seq<T>, e: seq<T>, f: seq<T>)
    ensures a + (b + (c + (d + e + f))) == a + (b + c) + (d + e) + f
  {
  }

  lemma PopExtendsHistory(s: State, at: real)
    requires s.stack != []
    ensures History(Pop(s, at)) == History(s) + [Loaded(at)]
  {
    var n := |s.stack| - 1;
    if n == 0 {
      PopRootExtendsHistory(s, at);
    } else {
      PopChildExtendsStack(s.stack[..n - 1], s.stack[n - 1], s.stack[n], at);
      assert s.stack == s.stack[..n - 1] + [s.stack[n - 1], s.stack[n]];
    }
  }

  lemma NextExtendsHistory(s: State, e: Event)
    ensures History(Next(s, e)) == History(s) + if e.Clear? || (e.Loaded? && s.stack == []) then [] else [e]
    ensures |Next(s, e).stack|
         == match e case Load(_, _, _) => |s.stack| + 1
                    case Loaded(_) => if s.stack == [] then 0 else |s.stack| - 1
                    case Clear => |s.stack|
  {
    match e
    case Load(id, filename, at) => LoadExtendsHistory(s, id, filename, at);
    case Loaded(at) => if s.stack != [] { PopExtendsHistory(s, at); }
    case Clear => assert s.taken + s.roots + [] == s.taken + s.roots;
  }

  /** Round trip, for every event sequence: rendering all roots, dropped ones included, and
      then the open nodes gives back the events, without unmatched ends. */
  lemma {:induction false} RenderingGivesEventsBack(events: seq<Event>)
    ensures var s := Run(EMPTY, events);
            History(s) == Matched(events) && |s.stack| == Depth(events)
  {
    if events != [] {
      var init, last := events[..|events| - 1], events[|events| - 1];
      RenderingGivesEventsBack(init);
      NextExtendsHistory(Run(EMPTY, init), last);
    }
  }

  // ---------- the other direction ----------

  /** `trees` end up as the latest children of the open node, or as the latest roots. */
  function Attach(s: State, trees: seq<Tree>): State {
    if s.stack == [] then s.(roots := s.roots + trees)
    else
      var n := |s.stack| - 1;
      s.(stack := s.stack[..n] + [s.stack[n].(closed := s.stack[n].closed + trees)])
  }

  lemma AttachNothing(s: State)
    ensures Attach(s, []) == s
  {
    if s.stack == [] {
      assert s.roots + [] == s.roots;
    } else {
      var n := |s.stack| - 1;
      assert s.stack[n].closed + [] == s.stack[n].closed;
      assert s.stack == s.stack[..n] + [s.stack[n]];
    }
  }

  lemma AttachMore(s: State, t: Tree, trees: seq<Tree>)
    ensures Attach(Attach(s, [t]), trees) == Attach(s, [t] + trees)
  {
    if s.stack == [] {
      assert s.roots + [t] + trees == s.roots + ([t] + trees);
    } else {
      var n := |s.stack| - 1;
      var attached := s.stack[..n] + [s.stack[n].(closed := s.stack[n].closed + [t])];
      assert attached[..n] == s.stack[..n];
      assert s.stack[n].closed + [t] + trees == s.stack[n].closed + ([t] + trees);
    }
  }

  lemma LoadChildrenPop(s: State, t: Tree)
    ensures var begun := Next(s, Load(t.id, t.filename, t.start));
            Next(Attach(begun, t.children), Loaded(t.end)) == Attach(s, [t])
  {
    var stack := s.stack + [Frame(t.id, t.filename, t.start, [])];
    assert stack[..|s.stack|] == s.stack;
    assert [] + t.children == t.children;
    var filled := s.stack + [Frame(t.id, t.filename, t.start, t.children)];
    assert Attach(s.(stack := stack), t.children) == s.(stack := filled);
    assert Close(filled[|s.stack|], t.end) == t;
    if s.stack != [] {
      var n := |s.stack| - 1;
      assert filled[..n] == s.stack[..n] && filled[n] == s.stack[n];
    }
  }

  /** Feeding the events of a forest to the tracer rebuilds exactly that forest. */
  lemma {:induction false} RunOfRender(s: State, trees: seq<Tree>)
    ensures Run(s, Render(trees)) == Attach(s, trees)
    decreases trees
  {
    if trees == [] {
      AttachNothing(s);
    } else {
      var t := trees[0];
      var begin, children, end, rest :=
        [Load(t.id, t.filename, t.start)], Render(t.children), [Loaded(t.end)], Render(trees[1..]);
      RunConcat(s, begin, children + (end + rest));
      RunConcat(Run(s, begin), children, end + rest);
      RunConcat(Run(Run(s, begin), children), end, rest);
      RunOne(s, begin[0]);
      RunOfRender(Next(s, begin[0]), t.children);
      RunOne(Attach(Next(s, begin[0]), t.children), end[0]);
      LoadChildrenPop(s, t);
      RunOfRender(Attach(s, [t]), trees[1..]);
      AttachMore(s, t, trees[1..]);
      assert [t] + trees[1..] == trees;
    }
  }

  lemma RunOne(s: State, e: Event)
    ensures Run(s, [e]) == Next(s, e)
  {
    assert [e][..0] == [];
    assert Run(s, []) == s;
  }

  /** Hence the events of a closed forest determine it. */
  lemma RenderIsInjective(a: seq<Tree>, b: seq<Tree>)
    requires Render(a) == Render(b)
    ensures a == b
  {
    RunOfRender(EMPTY, a);
    RunOfRender(EMPTY, b);
    assert [] + a == a && [] + b == b;
  }

  // ---------- every load is one node ----------

  function Loads(events: seq<Event>): seq<Event> {
    if events == [] then []
    else
      var last := events[|events| - 1];
      Loads(events[..|events| - 1]) + if last.Load? then [last] else []
  }

  /** The nodes of a forest in preorder, each as the load that began it. */
  function Preorder(trees: seq<Tree>): seq<Event> {
    if trees == [] then []
    else
      var t := trees[0];
      [Load(t.id, t.filename, t.start)] + (Preorder(t.children) + Preorder(trees[1..]))
  }

  lemma {:induction false} LoadsConcat(a: seq<Event>, b: seq<Event>)
    ensures Loads(a + b) == Loads(a) + Loads(b)
  {
    if b == [] {
      assert a + b == a;
    } else {
      LoadsConcat(a, b[..|b| - 1]);
      assert (a + b)[..|a + b| - 1] == a + b[..|b| - 1];
    }
  }

  lemma LoadsOne(e: Event)
    ensures Loads([e]) == if e.Load? then [e] else []
  {
    assert [e][..0] == [];
  }

  lemma LoadsOfNode(begin: Event, children: seq<Event>, end: Event, rest: seq<Event>)
    requires begin.Load? && end.Loaded?
    ensures Loads([begin] + (children + ([end] + rest))) == [begin] + (Loads(children) + Loads(rest))
  {
    LoadsConcat([begin], children + ([end] + rest));
    LoadsConcat(children, [end] + rest);
    LoadsConcat([end], rest);
    LoadsOne(begin);
    LoadsOne(end);
    assert [] + Loads(rest) == Loads(rest);
  }

  lemma {:induction false} LoadsOfRender(trees: seq<Tree>)
    ensures Loads(Render(trees)) == Preorder(trees)
    decreases trees
  {
    if trees == [] {
    } else {
      var t := trees[0];
      LoadsOfRender(t.children);
      LoadsOfRender(trees[1..]);
      LoadsOfNode(Load(t.id, t.filename, t.start), Render(t.children), Loaded(t.end), Render(trees[1..]));
    }
  }

  lemma {:induction false} MatchedKeepsLoads(events: seq<Event>)
    ensures Loads(Matched(events)) == Loads(events)
  {
    if events != [] {
      var init, last := events[..|events| - 1], events[|events| - 1];
      MatchedKeepsLoads(init);
      var kept := if last.Clear? || (last.Loaded? && Depth(init) == 0) then [] else [last];
      LoadsConcat(Matched(init), kept);
      LoadsOne(last);
    }
  }

  /** When every load has ended, each loaded module is exactly one node of the forest, and
      preorder is load order. */
  lemma EveryLoadIsOneNode(events: seq<Event>)
    requires Run(EMPTY, events).stack == []
    ensures Preorder(Run(EMPTY, events).taken + Run(EMPTY, events).roots) == Loads(events)
  {
    var s := Run(EMPTY, events);
    RenderingGivesEventsBack(events);
    assert Render(s.taken + s.roots) + [] == Render(s.taken + s.roots);
    MatchedKeepsLoads(events);
    LoadsOfRender(s.taken + s.roots);
  }
}
