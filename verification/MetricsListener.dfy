/** src/metrics/listener.ts: where a submitted metric goes. The promise of the processor and
    the event loop around it are the `flow` of module InvocationFlow. */
module MetricsListener {
  import opened Wrappers
  import opened JsStrings
  import opened MetricsModel
  import opened Batches
  import Flow = InvocationFlow

  const HISTORICAL_METRICS_THRESHOLD_MS := 4 * 60 * 60 * 1000

  datatype Config = Config(logForwarding: bool, shouldRetryMetrics: bool, fipsMode: bool)

  /** One call of `sendDistributionMetricWithDate`. */
  datatype Call = Call(name: JsString, value: real, timeMs: int, tags: seq<JsString>)
  {
    function ToDistribution(): Distribution {
      Distribution(name, [MetricPoint(timeMs, value)], tags, None)
    }
  }

  /** What the processor is handed for a call: a metric with the call's one point. */
  function EntryOf(call: Call): (entry: Entry)
    ensures entry == Keyed(entry.metric) && entry.metric.host == None
    ensures entry.metric.name == call.name && entry.metric.tags == call.tags
    ensures |entry.metric.points| == 1
            && entry.metric.points[0].timestampMs == call.timeMs && entry.metric.points[0].value == call.value
  {
    Keyed(call.ToDistribution())
  }

  datatype LogLine = LogLine(e: int, m: JsString, t: seq<JsString>, v: real)

  /** The line for a call: its time is the second that contains it. */
  function LineOf(call: Call): (line: LogLine)
    ensures line.m == call.name && line.t == call.tags && line.v == call.value
    ensures line.e * 1000 <= call.timeMs < (line.e + 1) * 1000
  {
    LogLine(call.timeMs / 1000, call.name, call.tags, call.value)
  }

  class MetricsListener {
    const config: Config
    var isExtensionRunning: Option<bool>
    var globalTags: seq<JsString>
    var apiKeyRequested: bool  // `apiKey` is defined
    var hasProcessor: bool     // `currentProcessor` is defined
    var flow: Flow.State       // of the latest `currentProcessor`
    var statsD: seq<Call>      // points handed to the extension
    var stdout: seq<LogLine>   // lines written for the log forwarder

    /** Global tags are set only while the extension runs, and a processor exists only
        when it does not: metrics for the API never carry them. */
    ghost predicate Valid()
      reads this
    {
      && (globalTags != [] ==> isExtensionRunning == Some(true))
      && (hasProcessor ==> isExtensionRunning == Some(false) && !config.logForwarding && apiKeyRequested)
      && (hasProcessor ==> flow.completion != Flow.Completed)
      && (config.fipsMode ==> flow.submitted == [])
    }

    constructor (config: Config)
      ensures Valid() && this.config == config && isExtensionRunning == None && !hasProcessor
      ensures statsD == [] && stdout == [] && flow.submitted == []
    {
      this.config := config;
      isExtensionRunning, globalTags := None, [];
      apiKeyRequested, hasProcessor := false, false;
      flow := Flow.Initial(config.shouldRetryMetrics);
      statsD, stdout := [], [];
    }

    method OnStartInvocation(extensionPresent: bool, enhancedTags: seq<JsString>)
      requires Valid()
      modifies this
      ensures Valid() && statsD == old(statsD) && stdout == old(stdout)
      ensures isExtensionRunning
           == if old(isExtensionRunning) == None then Some(extensionPresent) else old(isExtensionRunning)
      ensures hasProcessor <==> isExtensionRunning == Some(false) && !config.logForwarding
      ensures hasProcessor ==> flow == Flow.Initial(config.shouldRetryMetrics)
    {
      if isExtensionRunning == None {
        isExtensionRunning := Some(extensionPresent);
      }
      if isExtensionRunning.value {
        globalTags := enhancedTags;
        return;
      }
      if config.logForwarding { return; }
      apiKeyRequested := true;
      hasProcessor := true;
      flow := Flow.Initial(config.shouldRetryMetrics);
    }

    /** Each call has at most one effect. With the extension, a point for it, unless the
        point is older than four hours; else, with log forwarding or if asked for, a log
        line; else, with a processor and outside FIPS mode, a reaction on its promise. */
    method SendDistributionMetricWithDate(call: Call, forceAsync: bool, nowMs: int)
      requires Valid()
      modifies this
      ensures Valid() && hasProcessor == old(hasProcessor) && isExtensionRunning == old(isExtensionRunning)
      ensures statsD == old(statsD)
                        + if isExtensionRunning == Some(true) && nowMs - 14_400_000 <= call.timeMs then [call] else []
      ensures var logged := isExtensionRunning != Some(true) && (config.logForwarding || forceAsync);
              stdout == old(stdout) + if logged then [LineOf(call)] else []
      ensures if isExtensionRunning != Some(true) && !config.logForwarding && !forceAsync
                 && hasProcessor && !config.fipsMode
              then flow == Flow.Next(old(flow), Flow.Submit(EntryOf(call)))
                   && flow.submitted == old(flow.submitted) + [EntryOf(call)]
              else flow == old(flow)
    {
      if isExtensionRunning == Some(true) {
        var dateCeiling := nowMs - HISTORICAL_METRICS_THRESHOLD_MS;
        if dateCeiling > call.timeMs { return; }
        statsD := statsD + [call];
        return;
      }
      if config.logForwarding || forceAsync {
        stdout := stdout + [LineOf(call)];
        return;
      }
      if config.fipsMode { return; }
      var tags := call.tags;
      if |globalTags| > 0 {
        tags := tags + globalTags;
      }
      if !apiKeyRequested { return; }
      if hasProcessor {
        SubmitAppends(flow, EntryOf(call.(tags := tags)));
        flow := Flow.Next(flow, Flow.Submit(EntryOf(call.(tags := tags))));
      }
    }

    /** `onCompleteInvocation()` up to its first `await`. */
    method OnCompleteInvocation()
      requires Valid()
      modifies this`flow
      ensures Valid()
      ensures flow == if hasProcessor then Flow.Next(old(flow), Flow.Complete) else old(flow)
    {
      if hasProcessor {
        SubmittedGrowsBySubmit(flow, Flow.Complete);
        flow := Flow.Next(flow, Flow.Complete);
      }
    }

    /** Any later step of the event loop. The processor is forgotten when
        `onCompleteInvocation` is over, whether it flushed or caught an error. */
    method OnEvent(e: Flow.Event)
      requires Valid() && !e.Submit? && !e.Complete?
      modifies this`flow, this`hasProcessor
      ensures Valid() && flow == Flow.Next(old(flow), e)
      ensures hasProcessor <==> old(hasProcessor) && flow.completion != Flow.Completed
    {
      SubmittedGrowsBySubmit(flow, e);
      flow := Flow.Next(flow, e);
      if flow.completion == Flow.Completed {
        hasProcessor := false;
      }
    }
  }

  lemma SubmitAppends(s: Flow.State, metric: Entry)
    ensures Flow.Next(s, Flow.Submit(metric)).completion == s.completion
    ensures s.completion != Flow.Completed ==>
              Flow.Next(s, Flow.Submit(metric)).submitted == s.submitted + [metric]
  {
  }

  lemma SubmittedGrowsBySubmit(s: Flow.State, e: Flow.Event)
    requires !e.Submit?
    ensures Flow.Next(s, e).submitted == s.submitted
  {
  }
}
