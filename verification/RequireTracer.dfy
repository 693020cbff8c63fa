/** src/runtime/require-tracer.ts: the module-level stack and root list over linked nodes.
    A node is linked to its parent when it is pushed and finished when it is popped. */
module RequireTracer {
  import opened RequireForest

  class RequireNode {
    const id: string
    const filename: string
    const startTime: real
    var endTime: real
    var children: seq<RequireNode>
    ghost var tree: Tree // once the node is closed: the value it stands for

    constructor (id: string, filename: string, startTime: real)
      ensures this.id == id && this.filename == filename && this.startTime == startTime
      ensures endTime == startTime && children == []
    {
      this.id, this.filename, this.startTime := id, filename, startTime;
      endTime := startTime;
      children := [];
      tree := Node(id, filename, startTime, startTime, []);
    }
  }

  /** The nodes stand for the trees, place by place. */
  ghost predicate Stand(nodes: seq<RequireNode>, trees: seq<Tree>)
    reads nodes
  {
    |nodes| == |trees| && forall i :: 0 <= i < |nodes| ==> nodes[i].tree == trees[i]
  }

  /** A closed node agrees with its tree, and its children are closed. */
  ghost predicate IsClosed(node: RequireNode, closed: set<RequireNode>)
    reads node, closed
  {
    && node.tree == Node(node.id, node.filename, node.startTime, node.endTime, node.tree.children)
    && (forall c :: c in node.children ==> c in closed)
    && Stand(node.children, node.tree.children)
  }

  ghost predicate AllClosed(nodes: set<RequireNode>)
    reads nodes
  {
    forall n {:trigger IsClosed(n, nodes)} :: n in nodes ==> IsClosed(n, nodes)
  }

  /** An open node holds its closed children and then the open node above it, if any. */
  ghost predicate IsOpen(node: RequireNode, frame: Frame, above: seq<RequireNode>, closed: set<RequireNode>)
    reads node, closed
  {
    var n := |frame.closed|;
    && node.id == frame.id && node.filename == frame.filename && node.startTime == frame.start
    && n <= |node.children| && node.children[n..] == above
    && (forall i :: 0 <= i < n ==> node.children[i] in closed && node.children[i].tree == frame.closed[i])
  }

  /** The stack from the bottom up; `above` is what its top holds as an open child. */
  ghost predicate IsStack(stack: seq<RequireNode>, frames: seq<Frame>,
                          above: seq<RequireNode>, closed: set<RequireNode>)
    reads stack, closed
  {
    && |stack| == |frames|
    && (forall n :: n in stack ==> n !in closed)
    && (forall i, j :: 0 <= i < j < |stack| ==> stack[i] != stack[j])
    && forall i :: 0 <= i < |stack| ==>
         IsOpen(stack[i], frames[i], AboveAt(stack, i, above), closed)
  }

  function AboveAt(stack: seq<RequireNode>, i: nat, above: seq<RequireNode>): seq<RequireNode>
    requires i < |stack|
  {
    if i + 1 < |stack| then [stack[i + 1]] else above
  }

  lemma WithoutTop(stack: seq<RequireNode>, frames: seq<Frame>, closed: set<RequireNode>)
    requires stack != [] && IsStack(stack, frames, [], closed)
    ensures var n := |stack| - 1;
            && stack[n] !in stack[..n] && stack[n] !in closed
            && IsOpen(stack[n], frames[n], [], closed)
            && IsStack(stack[..n], frames[..n], [stack[n]], closed)
  {
    var n := |stack| - 1;
    assert IsOpen(stack[n], frames[n], AboveAt(stack, n, []), closed);
    forall i | 0 <= i < n
      ensures IsOpen(stack[..n][i], frames[..n][i], AboveAt(stack[..n], i, [stack[n]]), closed)
    {
      assert IsOpen(stack[i], frames[i], AboveAt(stack, i, []), closed);
    }
  }

  /** The top now holds an open child; nothing below it has changed. */
  lemma WithOpenChild(stack: seq<RequireNode>, frames: seq<Frame>, node: RequireNode, closed: set<RequireNode>)
    requires stack != [] && |stack| == |frames|
    requires var n := |stack| - 1;
             && stack[n] !in stack[..n] && stack[n] !in closed
             && IsOpen(stack[n], frames[n], [node], closed)
             && IsStack(stack[..n], frames[..n], [stack[n]], closed)
    ensures IsStack(stack, frames, [node], closed)
  {
    var n := |stack| - 1;
    assert stack == stack[..n] + [stack[n]];
    forall i | 0 <= i < |stack| ensures IsOpen(stack[i], frames[i], AboveAt(stack, i, [node]), closed) {
      if i < n {
        assert IsOpen(stack[..n][i], frames[..n][i], AboveAt(stack[..n], i, [stack[n]]), closed);
      }
    }
  }

  lemma WithTop(stack: seq<RequireNode>, frames: seq<Frame>, node: RequireNode, frame: Frame, closed: set<RequireNode>)
    requires IsStack(stack, frames, [node], closed)
    requires node !in stack && node !in closed && IsOpen(node, frame, [], closed)
    ensures IsStack(stack + [node], frames + [frame], [], closed)
  {
    var all, n := stack + [node], |stack|;
    forall i | 0 <= i < n ensures IsOpen(all[i], (frames + [frame])[i], AboveAt(all, i, []), closed) {
      assert IsOpen(stack[i], frames[i], AboveAt(stack, i, [node]), closed);
    }
  }

  lemma OpenStaysOpen(node: RequireNode, frame: Frame, above: seq<RequireNode>,
                      closed: set<RequireNode>, more: RequireNode)
    requires IsOpen(node, frame, above, closed)
    ensures IsOpen(node, frame, above, closed + {more})
  {
  }

  /** An open child that gets closed. */
  lemma OpenGainsChild(node: RequireNode, frame: Frame, child: RequireNode, closed: set<RequireNode>)
    requires IsOpen(node, frame, [child], closed)
    ensures IsOpen(node, frame.(closed := frame.closed + [child.tree]), [], closed + {child})
  {
    var n := |frame.closed|;
    assert node.children[n..][0] == node.children[n] == child;
    assert |node.children| == n + 1;
  }

  /** Once the node above it is closed, the top has one more closed child. */
  lemma TopGainsChild(stack: seq<RequireNode>, frames: seq<Frame>, node: RequireNode, closed: set<RequireNode>)
    requires stack != [] && node !in stack && IsStack(stack, frames, [node], closed)
    ensures var n := |stack| - 1;
            var top := frames[n].(closed := frames[n].closed + [node.tree]);
            IsStack(stack, frames[..n] + [top], [], closed + {node})
  {
    var n := |stack| - 1;
    var top := frames[n].(closed := frames[n].closed + [node.tree]);
    var after := frames[..n] + [top];
    forall i | 0 <= i < |stack| ensures IsOpen(stack[i], after[i], AboveAt(stack, i, []), closed + {node}) {
      assert IsOpen(stack[i], frames[i], AboveAt(stack, i, [node]), closed);
      if i < n {
        OpenStaysOpen(stack[i], frames[i], [stack[i + 1]], closed, node);
      } else {
        OpenGainsChild(stack[n], frames[n], node, closed);
      }
    }
  }

  /** The parent of a node that was just finished, which already links to it, holds it as a
      closed child. */
  lemma ParentHoldsChild(
    stack: seq<RequireNode>, s: State, reqNode: RequireNode, endTime: real, closed: set<RequireNode>)
    requires stack != [] && s.stack != [] && reqNode.tree == Close(s.stack[|s.stack| - 1], endTime)
    requires reqNode !in stack && IsStack(stack, s.stack[..|s.stack| - 1], [reqNode], closed)
    ensures IsStack(stack, Next(s, Loaded(endTime)).stack, [], closed + {reqNode})
    ensures Next(s, Loaded(endTime)).roots == s.roots
  {
    var n := |s.stack| - 1;
    TopGainsChild(stack, s.stack[..n], reqNode, closed);
    assert s.stack[..n][..n - 1] == s.stack[..n - 1];
  }

  lemma StillClosed(nodes: set<RequireNode>, node: RequireNode)
    requires AllClosed(nodes) && IsClosed(node, nodes)
    ensures AllClosed(nodes + {node})
  {
    forall n | n in nodes + {node} ensures IsClosed(n, nodes + {node}) {
      assert IsClosed(n, nodes);
    }
  }

  /** `reqNode.endTime = endTime`: an open node without an open child becomes a closed one.
      Nothing else that is closed, and nothing below it on the stack, notices. */
  method Finish(reqNode: RequireNode, endTime: real, rest: seq<RequireNode>,
                ghost frames: seq<Frame>, ghost frame: Frame, ghost closed: set<RequireNode>)
    requires IsOpen(reqNode, frame, [], closed) && reqNode !in closed && reqNode !in rest
    requires AllClosed(closed)
    requires IsStack(rest, frames, [reqNode], closed)
    modifies reqNode
    ensures reqNode.tree == Close(frame, endTime)
    ensures AllClosed(closed + {reqNode})
    ensures IsStack(rest, frames, [reqNode], closed)
  {
    assert |reqNode.children| == |frame.closed|;
    reqNode.endTime := endTime;
    reqNode.tree := Close(frame, endTime);
    assert IsClosed(reqNode, closed);
    StillClosed(closed, reqNode);
  }

  class RequireTracer {
    var rootNodes: seq<RequireNode>
    var requireStack: seq<RequireNode>
    ghost var closed: set<RequireNode>
    ghost var state: State

    ghost predicate Valid()
      reads this, requireStack, closed
    {
      && AllClosed(closed)
      && (forall n :: n in rootNodes ==> n in closed)
      && Stand(rootNodes, state.roots)
      && IsStack(requireStack, state.stack, [], closed)
    }

    constructor ()
      ensures Valid() && state == EMPTY
    {
      rootNodes, requireStack := [], [];
      closed := {};
      state := EMPTY;
    }

    /** The subscriber of `dd-trace:moduleLoadStart`. */
    method PushNode(id: string, filename: string, startTime: real)
      requires Valid()
      modifies this, requireStack
      ensures Valid() && state == Next(old(state), Load(id, filename, startTime))
    {
      var reqNode := new RequireNode(id, filename, startTime);
      if |requireStack| > 0 {
        LinkToParent(reqNode);
      }
      PushOpen(reqNode);
    }

    /** `requireStack.push(reqNode)` */
    method PushOpen(reqNode: RequireNode)
      requires AllClosed(closed) && (forall n :: n in rootNodes ==> n in closed) && Stand(rootNodes, state.roots)
      requires IsStack(requireStack, state.stack, [reqNode], closed)
      requires reqNode !in requireStack && reqNode !in closed
      requires IsOpen(reqNode, Frame(reqNode.id, reqNode.filename, reqNode.startTime, []), [], closed)
      modifies this`requireStack, this`state
      ensures Valid() && state == Next(old(state), Load(reqNode.id, reqNode.filename, reqNode.startTime))
    {
      WithTop(requireStack, state.stack, reqNode, Frame(reqNode.id, reqNode.filename, reqNode.startTime, []), closed);
      requireStack := requireStack + [reqNode];
      state := Next(state, Load(reqNode.id, reqNode.filename, reqNode.startTime));
    }

    /** `maybeParent.children.push(reqNode)` */
    method LinkToParent(reqNode: RequireNode)
      requires Valid() && requireStack != [] && reqNode !in requireStack && reqNode !in closed
      modifies requireStack[|requireStack| - 1]
      ensures AllClosed(closed)
      ensures Stand(rootNodes, state.roots)
      ensures IsStack(requireStack, state.stack, [reqNode], closed)
    {
      var n := |requireStack| - 1;
      var maybeParent := requireStack[n];
      WithoutTop(requireStack, state.stack, closed);
      maybeParent.children := maybeParent.children + [reqNode];
      WithOpenChild(requireStack, state.stack, reqNode, closed);
    }

    /** The subscriber of `dd-trace:moduleLoadEnd`. */
    method PopNode(endTime: real)
      requires Valid()
      modifies this, requireStack
      ensures Valid() && state == Next(old(state), Loaded(endTime))
    {
      if |requireStack| > 0 {
        ghost var before := closed;
        var reqNode := CloseTop(endTime);
        if |requireStack| <= 0 {
          BecomeRoot(reqNode, endTime);
        } else {
          ParentHoldsChild(requireStack, state, reqNode, endTime, before);
          AttachToParent(endTime);
        }
      }
    }

    /** `rootNodes.push(reqNode)` */
    method BecomeRoot(reqNode: RequireNode, endTime: real)
      requires AllClosed(closed) && (forall n :: n in rootNodes ==> n in closed) && Stand(rootNodes, state.roots)
      requires |state.stack| == 1 && requireStack == []
      requires reqNode in closed && reqNode.tree == Close(state.stack[0], endTime)
      modifies this`rootNodes, this`state
      ensures Valid() && state == Next(old(state), Loaded(endTime))
    {
      rootNodes := rootNodes + [reqNode];
      state := Next(state, Loaded(endTime));
    }

    /** The parent, which already links to the node, now holds it as a closed child. */
    ghost method AttachToParent(endTime: real)
      requires AllClosed(closed) && (forall n :: n in rootNodes ==> n in closed) && Stand(rootNodes, state.roots)
      requires Next(state, Loaded(endTime)).roots == state.roots
      requires IsStack(requireStack, Next(state, Loaded(endTime)).stack, [], closed)
      modifies this`state
      ensures Valid() && state == Next(old(state), Loaded(endTime))
    {
      state := Next(state, Loaded(endTime));
    }

    /** `requireStack.pop()` and the end time. */
    method CloseTop(endTime: real) returns (reqNode: RequireNode)
      requires Valid() && requireStack != []
      modifies this`requireStack, this`closed, requireStack[|requireStack| - 1]
      ensures reqNode == old(requireStack)[|old(requireStack)| - 1]
      ensures requireStack == old(requireStack)[..|state.stack| - 1]
      ensures state.stack != [] && reqNode.tree == Close(state.stack[|state.stack| - 1], endTime)
      ensures reqNode !in requireStack && closed == old(closed) + {reqNode} && AllClosed(closed)
      ensures (forall n :: n in rootNodes ==> n in closed) && Stand(rootNodes, state.roots)
      ensures IsStack(requireStack, state.stack[..|state.stack| - 1], [reqNode], old(closed))
    {
      var n := |requireStack| - 1;
      reqNode := requireStack[n];
      var rest := requireStack[..n];
      WithoutTop(requireStack, state.stack, closed);
      Finish(reqNode, endTime, rest, state.stack[..n], state.stack[n], closed);
      requireStack := rest;
      closed := closed + {reqNode};
    }

    method GetTraceTree() returns (nodes: seq<RequireNode>)
      ensures nodes == rootNodes
    {
      nodes := rootNodes;
    }

    method ClearTraceTree()
      requires Valid()
      modifies this
      ensures Valid() && state == Next(old(state), Clear) && rootNodes == [] && requireStack == old(requireStack)
    {
      rootNodes := [];
      state := Next(state, Clear);
    }
  }
}
