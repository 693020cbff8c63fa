/** src/trace/cold-start-tracer.ts: the class that walks the linked nodes of the load forest
    and calls the tracer. Its log is the one of module ColdStart. */
module ColdStartTracer {
  import opened Wrappers
  import opened Sequences
  import opened RequireForest
  import opened LoadIntervals
  import opened RequireTracer
  import opened ColdStart

  /** dd-trace, as far as it is used: it numbers the spans and records the calls. */
  class Tracer {
    var log: seq<Entry>
    var nextId: nat

    constructor ()
      ensures log == [] && nextId == 0
    {
      log, nextId := [], 0;
    }

    method StartSpan(parent: Option<nat>, name: string, resource: Option<string>, filename: string, at: Option<real>)
      returns (id: nat)
      modifies this
      ensures id == old(nextId) && nextId == old(nextId) + 1
      ensures log == old(log) + [Entry.StartSpan(id, parent, name, resource, filename, at)]
    {
      id := nextId;
      nextId := nextId + 1;
      log := log + [Entry.StartSpan(id, parent, name, resource, filename, at)];
    }

    method Finish(id: nat, at: Option<real>)
      modifies this`log
      ensures log == old(log) + [FinishSpan(id, at)]
    {
      log := log + [FinishSpan(id, at)];
    }
  }

  class ColdStartTracer {
    const tracer: Tracer
    const parentSpan: Option<nat>
    const lambdaFunctionName: Option<string>
    const currentSpanStartTime: real
    const cfg: Config
    const isColdStart: bool

    constructor (tracer: Tracer, parentSpan: Option<nat>, lambdaFunctionName: Option<string>,
                 currentSpanStartTime: real, minDuration: real, ignoreLibs: string, isColdStart: bool)
      ensures this.tracer == tracer && this.parentSpan == parentSpan && this.isColdStart == isColdStart
      ensures this.currentSpanStartTime == currentSpanStartTime && this.lambdaFunctionName == lambdaFunctionName
      ensures cfg == Config(minDuration, Split(ignoreLibs, ','))
    {
      this.tracer, this.parentSpan := tracer, parentSpan;
      this.lambdaFunctionName, this.currentSpanStartTime := lambdaFunctionName, currentSpanStartTime;
      cfg := Config(minDuration, Split(ignoreLibs, ','));
      this.isColdStart := isColdStart;
    }

    method TraceTree(reqNode: RequireNode, parent: Option<nat>, ghost closed: set<RequireNode>)
      requires reqNode in closed && AllClosed(closed)
      modifies tracer
      ensures tracer.log == old(tracer.log) + Emit([reqNode.tree], parent, old(tracer.nextId), cfg)
      ensures tracer.nextId == old(tracer.nextId) + Size([reqNode.tree], cfg)
      decreases reqNode.tree
    {
      ghost var t := reqNode.tree;
      assert IsClosed(reqNode, closed);
      EmitOne(t, parent, tracer.nextId, cfg);
      if reqNode.endTime - reqNode.startTime < cfg.minDuration { return; }
      if reqNode.id in cfg.ignoreLibs { return; }
      var newSpan := tracer.StartSpan(
        parent, SpanName(reqNode.filename), Some(reqNode.id), reqNode.filename, Some(reqNode.startTime));
      if reqNode.endTime - reqNode.startTime > cfg.minDuration {
        TraceChildren(reqNode, newSpan, closed);
      }
      tracer.Finish(newSpan, Some(reqNode.endTime));
    }

    /** `for (const node of reqNode.children)` */
    method TraceChildren(reqNode: RequireNode, newSpan: nat, ghost closed: set<RequireNode>)
      requires reqNode in closed && AllClosed(closed)
      modifies tracer
      ensures tracer.log == old(tracer.log) + Emit(reqNode.tree.children, Some(newSpan), old(tracer.nextId), cfg)
      ensures tracer.nextId == old(tracer.nextId) + Size(reqNode.tree.children, cfg)
      decreases reqNode.tree, 0
    {
      ghost var trees := reqNode.tree.children;
      assert IsClosed(reqNode, closed);
      for i := 0 to |reqNode.children|
        invariant tracer.log == old(tracer.log) + Emit(trees[..i], Some(newSpan), old(tracer.nextId), cfg)
        invariant tracer.nextId == old(tracer.nextId) + Size(trees[..i], cfg)
      {
        EmitUpTo(old(tracer.log), trees, i, Some(newSpan), old(tracer.nextId), cfg);
        TraceTree(reqNode.children[i], Some(newSpan), closed);
      }
      assert trees[..|trees|] == trees;
    }

    method CreateColdStartSpan(startTime: Option<real>, endTime: Option<real>) returns (newSpan: nat)
      modifies tracer
      ensures newSpan == old(tracer.nextId) && tracer.nextId == old(tracer.nextId) + 1
      ensures tracer.log == old(tracer.log)
              + [Entry.StartSpan(newSpan, parentSpan, "aws.lambda.load", lambdaFunctionName, "", startTime),
                 FinishSpan(newSpan, endTime)]
    {
      newSpan := tracer.StartSpan(parentSpan, "aws.lambda.load", lambdaFunctionName, "", startTime);
      tracer.Finish(newSpan, endTime);
    }

    /** On a cold start a load span comes first, and the roots' spans hang below it; without
        roots its times are undefined and NaN. */
    method Trace(rootNodes: seq<RequireNode>, ghost closed: set<RequireNode>, ghost roots: seq<Tree>)
      requires AllClosed(closed)
      requires (forall n :: n in rootNodes ==> n in closed) && Stand(rootNodes, roots)
      modifies tracer
      ensures var id := old(tracer.nextId);
              var start := if roots == [] then None else Some(roots[0].start);
              var end := if roots == [] then None else Some(LoadSpanEnd(roots, currentSpanStartTime));
              tracer.log == old(tracer.log) + if isColdStart then
                [Entry.StartSpan(id, parentSpan, "aws.lambda.load", lambdaFunctionName, "", start), FinishSpan(id, end)]
                + Emit(roots, Some(id), id + 1, cfg)
              else Emit(roots, parentSpan, id, cfg)
    {
      var coldStartSpanStartTime, coldStartSpanEndTime := None, None;
      if |rootNodes| > 0 {
        assert IsClosed(rootNodes[0], closed) && IsClosed(rootNodes[|rootNodes| - 1], closed);
        coldStartSpanStartTime := Some(rootNodes[0].startTime);
        coldStartSpanEndTime := Some(Min(rootNodes[|rootNodes| - 1].endTime, currentSpanStartTime));
      }
      var targetParentSpan := parentSpan;
      if isColdStart {
        var coldStartSpan := CreateColdStartSpan(coldStartSpanStartTime, coldStartSpanEndTime);
        targetParentSpan := Some(coldStartSpan);
      }
      TraceRoots(rootNodes, targetParentSpan, closed, roots);
    }

    /** `for (const coldStartNode of rootNodes)` */
    method TraceRoots(rootNodes: seq<RequireNode>, parent: Option<nat>,
                      ghost closed: set<RequireNode>, ghost roots: seq<Tree>)
      requires AllClosed(closed)
      requires (forall n :: n in rootNodes ==> n in closed) && Stand(rootNodes, roots)
      modifies tracer
      ensures tracer.log == old(tracer.log) + Emit(roots, parent, old(tracer.nextId), cfg)
    {
      for i := 0 to |rootNodes|
        invariant tracer.log == old(tracer.log) + Emit(roots[..i], parent, old(tracer.nextId), cfg)
        invariant tracer.nextId == old(tracer.nextId) + Size(roots[..i], cfg)
      {
        EmitUpTo(old(tracer.log), roots, i, parent, old(tracer.nextId), cfg);
        TraceTree(rootNodes[i], parent, closed);
      }
      assert roots[..|roots|] == roots;
    }
  }

  /** The first new entries are those of a load span from the first root's start to the last
      root's end, or to the current span's start if that is earlier. */
  predicate BeginsWithLoadSpan(log: seq<Entry>, id: nat, ct: ColdStartTracer, roots: seq<Tree>)
    requires roots != []
  {
    var last := roots[|roots| - 1].end;
    && |log| >= 2
    && log[0] == Entry.StartSpan(id, ct.parentSpan, "aws.lambda.load", ct.lambdaFunctionName, "", Some(roots[0].start))
    && log[1] == FinishSpan(id, Some(if last <= ct.currentSpanStartTime then last else ct.currentSpanStartTime))
  }

  ghost predicate IsLogOf(log: seq<Entry>, id: nat, ct: ColdStartTracer, roots: seq<Tree>) {
    roots != [] &&
    if ct.isColdStart then BeginsWithLoadSpan(log, id, ct, roots) && log[2..] == Emit(roots, Some(id), id + 1, ct.cfg)
    else log == Emit(roots, ct.parentSpan, id, ct.cfg)
  }

  /** `trace` on at least one root. */
  method TraceSome(ct: ColdStartTracer, nodes: seq<RequireNode>, ghost closed: set<RequireNode>, ghost roots: seq<Tree>)
    returns (ghost added: seq<Entry>)
    requires AllClosed(closed) && (forall n :: n in nodes ==> n in closed) && Stand(nodes, roots) && roots != []
    modifies ct.tracer
    ensures ct.tracer.log == old(ct.tracer.log) + added
    ensures IsLogOf(added, old(ct.tracer.nextId), ct, roots)
  {
    ct.Trace(nodes, closed, roots);
    added := ct.tracer.log[|old(ct.tracer.log)|..];
  }

  /** src/trace/listener.ts at the end of an invocation: the loads seen so far become spans,
      unless that is switched off, and are then forgotten. */
  method TraceAndClear(rt: RequireTracer, ct: ColdStartTracer, skip: bool) returns (ghost added: seq<Entry>)
    requires rt.Valid()
    modifies rt, ct.tracer
    ensures rt.Valid() && rt.rootNodes == [] && rt.state == Next(old(rt.state), Clear)
    ensures ct.tracer.log == old(ct.tracer.log) + added
    ensures if old(rt.state.roots) == [] || skip then added == []
            else IsLogOf(added, old(ct.tracer.nextId), ct, old(rt.state.roots))
  {
    added := [];
    var coldStartNodes := rt.GetTraceTree();
    if |coldStartNodes| > 0 {
      if !skip {
        added := TraceSome(ct, coldStartNodes, rt.closed, rt.state.roots);
      }
      rt.ClearTraceTree();
    } else {
      assert rt.state.taken + [] == rt.state.taken;
    }
  }

  /** On a cold start, a load span and the trace of the roots below it; otherwise the trace
      of the roots below the given parent. */
  ghost predicate IsTracedRun(log: seq<Entry>, id: nat, ct: ColdStartTracer, events: seq<Event>, origin: real) {
    var roots, now := Run(EMPTY, events).roots, LastTime(events, origin);
    roots != [] &&
    if ct.isColdStart then
      BeginsWithLoadSpan(log, id, ct, roots) && IsTraceOf(log[2..], roots, Some(id), id + 1, ct.cfg, origin, now)
    else IsTraceOf(log, roots, ct.parentSpan, id, ct.cfg, origin, now)
  }

  lemma LogOfRun(log: seq<Entry>, id: nat, ct: ColdStartTracer, events: seq<Event>, origin: real)
    requires Clocked(events, origin) && IsLogOf(log, id, ct, Run(EMPTY, events).roots)
    ensures IsTracedRun(log, id, ct, events, origin)
  {
    if ct.isColdStart {
      SpansOfAnyRun(events, origin, Some(id), id + 1, ct.cfg);
    } else {
      SpansOfAnyRun(events, origin, ct.parentSpan, id, ct.cfg);
    }
  }

  /** After any clocked load events: on a cold start the new part of the log is a load span
      and the trace of the roots below it, otherwise the trace of the roots below the given
      parent; and it is empty if there is no root or tracing is skipped. */
  method TraceLoaded(rt: RequireTracer, ct: ColdStartTracer, skip: bool, ghost events: seq<Event>, ghost origin: real)
    returns (ghost added: seq<Entry>)
    requires rt.Valid() && rt.state == Run(EMPTY, events) && Clocked(events, origin)
    modifies rt, ct.tracer
    ensures rt.Valid() && rt.rootNodes == [] && rt.state == Run(EMPTY, events + [Clear])
    ensures ct.tracer.log == old(ct.tracer.log) + added
    ensures if Run(EMPTY, events).roots == [] || skip then added == []
            else IsTracedRun(added, old(ct.tracer.nextId), ct, events, origin)
  {
    ghost var id := ct.tracer.nextId;
    assert (events + [Clear])[..|events|] == events;
    added := TraceAndClear(rt, ct, skip);
    if Run(EMPTY, events).roots != [] && !skip {
      LogOfRun(added, id, ct, events, origin);
    }
  }

  lemma EmitUpTo(before: seq<Entry>, trees: seq<Tree>, i: nat, parent: Option<nat>, next: nat, cfg: Config)
    requires i < |trees|
    ensures Size(trees[..i + 1], cfg) == Size(trees[..i], cfg) + Size([trees[i]], cfg)
    ensures before + Emit(trees[..i], parent, next, cfg) + Emit([trees[i]], parent, next + Size(trees[..i], cfg), cfg)
         == before + Emit(trees[..i + 1], parent, next, cfg)
  {
    EmitConcat(trees[..i], [trees[i]], parent, next, cfg);
    assert trees[..i + 1] == trees[..i] + [trees[i]];
  }

  /** `traceTree` on one node, spelled out. */
  lemma EmitOne(t: Tree, parent: Option<nat>, next: nat, cfg: Config)
    ensures !Traced(t, cfg) ==> Emit([t], parent, next, cfg) == [] && Size([t], cfg) == 0
    ensures Traced(t, cfg) ==>
              && Emit([t], parent, next, cfg)
                 == [StartOf(t, next, parent)] + Emit(Descended(t, cfg), Some(next), next + 1, cfg)
                    + [FinishSpan(next, Some(t.end))]
              && Size([t], cfg) == 1 + Size(Descended(t, cfg), cfg)
  {
    assert [t][1..] == [];
  }
}
