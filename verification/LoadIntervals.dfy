/** The intervals of the forest of module RequireForest under a clock that never runs
    backwards: nested, ordered and non-overlapping. */
module LoadIntervals {
  import opened RequireForest

  /** Within `lo..hi`, one after the other, each containing its children in the same way. */
  predicate WellTimed(trees: seq<Tree>, lo: real, hi: real) {
    if trees == [] then lo <= hi
    else
      && lo <= trees[0].start
      && WellTimed(trees[0].children, trees[0].start, trees[0].end)
      && WellTimed(trees[1..], trees[0].end, hi)
  }

  /** Each open node began after everything closed before it, and contains its own
      closed children. */
  predicate StackTimed(roots: seq<Tree>, stack: seq<Frame>, origin: real, now: real) {
    if stack == [] then WellTimed(roots, origin, now)
    else
      var top := stack[|stack| - 1];
      StackTimed(roots, stack[..|stack| - 1], origin, top.start) && WellTimed(top.closed, top.start, now)
  }

  function LastTime(events: seq<Event>, origin: real): real {
    if events == [] then origin
    else
      var last := events[|events| - 1];
      if last.Clear? then LastTime(events[..|events| - 1], origin) else last.at
  }

  predicate Clocked(events: seq<Event>, origin: real) {
    events == []
    || (var init, last := events[..|events| - 1], events[|events| - 1];
        Clocked(init, origin) && (!last.Clear? ==> LastTime(init, origin) <= last.at))
  }

  /** Any two loads or ends carry times in order, none before the origin. */
  predicate InTimeOrder(events: seq<Event>, origin: real) {
    && (forall i :: 0 <= i < |events| && !events[i].Clear? ==> origin <= events[i].at)
    && (forall i, j :: 0 <= i < j < |events| && !events[i].Clear? && !events[j].Clear? ==> events[i].at <= events[j].at)
  }

  /** `LastTime` is the time of the last load or end. */
  lemma {:induction false} LastTimeIsLast(events: seq<Event>, origin: real) returns (k: int)
    ensures -1 <= k < |events| && forall j :: k < j < |events| ==> events[j].Clear?
    ensures if k == -1 then LastTime(events, origin) == origin
            else !events[k].Clear? && LastTime(events, origin) == events[k].at
  {
    var n := |events| - 1;
    if events == [] || !events[n].Clear? {
      k := n;
    } else {
      k := LastTimeIsLast(events[..n], origin);
      assert forall i :: 0 <= i < n ==> events[..n][i] == events[i];
    }
  }

  /** `Clocked` says that the clock never runs backwards. */
  lemma {:induction false} ClockedMeans(events: seq<Event>, origin: real)
    ensures Clocked(events, origin) <==> InTimeOrder(events, origin)
  {
    if events != [] {
      var n := |events| - 1;
      var init, last := events[..n], events[n];
      ClockedMeans(init, origin);
      var k := LastTimeIsLast(init, origin);
      assert forall i :: 0 <= i < n ==> init[i] == events[i];
      if InTimeOrder(init, origin) && !last.Clear? && LastTime(init, origin) <= last.at {
        forall i | 0 <= i < n && !events[i].Clear? ensures origin <= events[i].at <= last.at {
          assert i <= k && init[i].at <= init[k].at;
        }
      }
    }
  }

  lemma {:induction false} LaterBound(trees: seq<Tree>, lo: real, hi: real, later: real)
    requires WellTimed(trees, lo, hi) && hi <= later
    ensures WellTimed(trees, lo, later)
  {
    if trees != [] { LaterBound(trees[1..], trees[0].end, hi, later); }
  }

  lemma LaterNow(roots: seq<Tree>, stack: seq<Frame>, origin: real, now: real, later: real)
    requires StackTimed(roots, stack, origin, now) && now <= later
    ensures StackTimed(roots, stack, origin, later)
  {
    if stack == [] {
      LaterBound(roots, origin, now, later);
    } else {
      var top := stack[|stack| - 1];
      LaterBound(top.closed, top.start, now, later);
    }
  }

  lemma {:induction false} BoundsInOrder(trees: seq<Tree>, lo: real, hi: real)
    requires WellTimed(trees, lo, hi)
    ensures lo <= hi
    decreases trees
  {
    if trees != [] {
      BoundsInOrder(trees[0].children, trees[0].start, trees[0].end);
      BoundsInOrder(trees[1..], trees[0].end, hi);
    }
  }

  lemma {:induction false} AppendTimed(trees: seq<Tree>, lo: real, mid: real, t: Tree)
    requires WellTimed(trees, lo, mid) && mid <= t.start && WellTimed(t.children, t.start, t.end)
    ensures WellTimed(trees + [t], lo, t.end)
  {
    BoundsInOrder(t.children, t.start, t.end);
    if trees == [] {
      assert ([t])[1..] == [];
      assert trees + [t] == [t];
    } else {
      AppendTimed(trees[1..], trees[0].end, mid, t);
      assert (trees + [t])[1..] == trees[1..] + [t];
    }
  }

  lemma LoadTimed(s: State, origin: real, now: real, id: string, filename: string, at: real)
    requires StackTimed(s.taken + s.roots, s.stack, origin, now) && now <= at
    ensures var t := Next(s, Load(id, filename, at)); StackTimed(t.taken + t.roots, t.stack, origin, at)
  {
    LaterNow(s.taken + s.roots, s.stack, origin, now, at);
    var stack := s.stack + [Frame(id, filename, at, [])];
    assert stack[..|stack| - 1] == s.stack;
  }

  lemma PopTimed(s: State, origin: real, now: real, at: real)
    requires s.stack != [] && StackTimed(s.taken + s.roots, s.stack, origin, now) && now <= at
    ensures var t := Pop(s, at); StackTimed(t.taken + t.roots, t.stack, origin, at)
  {
    var n := |s.stack| - 1;
    var top, all := s.stack[n], s.taken + s.roots;
    var node := Close(top, at);
    LaterBound(top.closed, top.start, now, at);
    if n == 0 {
      AppendTimed(all, origin, top.start, node);
      assert s.taken + (s.roots + [node]) == all + [node];
    } else {
      var below := s.stack[n - 1];
      assert s.stack[..n][..n - 1] == s.stack[..n - 1] && s.stack[..n][n - 1] == below;
      AppendTimed(below.closed, below.start, top.start, node);
      var stack := s.stack[..n - 1] + [below.(closed := below.closed + [node])];
      assert stack[..n - 1] == s.stack[..n - 1];
    }
  }

  /** Along any run, all nodes, open, closed or dropped, are properly nested and ordered. */
  lemma {:induction false} RunIsTimed(events: seq<Event>, origin: real)
    requires Clocked(events, origin)
    ensures var s := Run(EMPTY, events);
            StackTimed(s.taken + s.roots, s.stack, origin, LastTime(events, origin))
  {
    if events != [] {
      var init, last := events[..|events| - 1], events[|events| - 1];
      RunIsTimed(init, origin);
      var s, now := Run(EMPTY, init), LastTime(init, origin);
      match last
      case Load(id, filename, at) => LoadTimed(s, origin, now, id, filename, at);
      case Loaded(at) =>
        if s.stack != [] { PopTimed(s, origin, now, at); }
        else { LaterNow(s.taken + s.roots, [], origin, now, at); }
      case Clear => assert s.taken + s.roots + [] == s.taken + s.roots;
    }
  }

  lemma {:induction false} RootsTimed(roots: seq<Tree>, stack: seq<Frame>, origin: real, now: real)
    requires StackTimed(roots, stack, origin, now)
    ensures WellTimed(roots, origin, now)
    decreases |stack|
  {
    if stack != [] {
      var top := stack[|stack| - 1];
      RootsTimed(roots, stack[..|stack| - 1], origin, top.start);
      BoundsInOrder(top.closed, top.start, now);
      LaterBound(roots, origin, top.start, now);
    }
  }

  /** What `WellTimed` means for any two of the trees. */
  lemma {:induction false} WellTimedMeans(trees: seq<Tree>, lo: real, hi: real, i: nat, j: nat)
    requires WellTimed(trees, lo, hi) && i <= j < |trees|
    ensures lo <= trees[i].start <= trees[i].end && trees[j].start <= trees[j].end <= hi
    ensures i < j ==> trees[i].end <= trees[j].start
    ensures WellTimed(trees[i].children, trees[i].start, trees[i].end)
  {
    BoundsInOrder(trees[0].children, trees[0].start, trees[0].end);
    BoundsInOrder(trees[1..], trees[0].end, hi);
    if i > 0 {
      WellTimedMeans(trees[1..], trees[0].end, hi, i - 1, j - 1);
    } else if j > 0 {
      WellTimedMeans(trees[1..], trees[0].end, hi, j - 1, j - 1);
    }
  }

  /** What is left after the first trees were dropped is still nested and ordered. */
  lemma {:induction false} SuffixTimed(dropped: seq<Tree>, trees: seq<Tree>, lo: real, hi: real) returns (mid: real)
    requires WellTimed(dropped + trees, lo, hi)
    ensures lo <= mid && WellTimed(trees, mid, hi)
  {
    if dropped == [] {
      assert dropped + trees == trees;
      mid := lo;
    } else {
      assert (dropped + trees)[1..] == dropped[1..] + trees;
      BoundsInOrder(dropped[0].children, dropped[0].start, dropped[0].end);
      mid := SuffixTimed(dropped[1..], trees, dropped[0].end, hi);
    }
  }

  /** The roots that `getTraceTree()` returns after any run are nested and ordered. */
  lemma CurrentRootsTimed(events: seq<Event>, origin: real) returns (lo: real, hi: real)
    requires Clocked(events, origin)
    ensures WellTimed(Run(EMPTY, events).roots, lo, hi) && origin <= lo && hi == LastTime(events, origin)
  {
    var s := Run(EMPTY, events);
    hi := LastTime(events, origin);
    RunIsTimed(events, origin);
    RootsTimed(s.taken + s.roots, s.stack, origin, hi);
    lo := SuffixTimed(s.taken, s.roots, origin, hi);
  }
}
