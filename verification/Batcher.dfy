/** src/metrics/batcher.ts: what a batch of added metrics must look like, stated without
    the Map that the class keeps. */
module Batches {
  import opened JsStrings
  import opened MetricsModel
  import BatchKey

  /** A metric with its batch key: what is added, and what the Map holds. */
  datatype Entry = Entry(key: JsString, metric: Distribution)

  function Keyed(metric: Distribution): Entry {
    Entry(BatchKey.KeyText(metric.Key()), metric)
  }

  /** Keyed metrics meet in one entry exactly when they agree on host, type, name and tags. */
  lemma SameEntryIffSameMetric(a: Distribution, b: Distribution)
    ensures Keyed(a).key == Keyed(b).key <==>
            a.host == b.host && a.name == b.name && multiset(a.tags) == multiset(b.tags)
  {
    BatchKey.SameKeyIffSameMetric(a.Key(), b.Key());
  }

  /** The distinct keys of `adds`, each at the place of its first occurrence. */
  function FirstKeys(adds: seq<Entry>): seq<JsString> {
    if adds == [] then []
    else
      var earlier := FirstKeys(adds[..|adds| - 1]);
      var key := adds[|adds| - 1].key;
      if key in earlier then earlier else earlier + [key]
  }

  /** All points added under `key`, in add order. */
  function PointsFor(adds: seq<Entry>, key: JsString): seq<MetricPoint> {
    if adds == [] then []
    else
      var last := adds[|adds| - 1];
      PointsFor(adds[..|adds| - 1], key) + if last.key == key then last.metric.points else []
  }

  /** The metric that brought `key` in: it decides the name, the host and the tag order. */
  function FirstWith(adds: seq<Entry>, key: JsString): (r: Distribution)
    requires key in FirstKeys(adds)
    ensures Entry(key, r) in adds
  {
    var earlier := adds[..|adds| - 1];
    if key in FirstKeys(earlier) then FirstWith(earlier, key) else adds[|adds| - 1].metric
  }

  lemma {:induction false} FirstKeysAreTheKeys(adds: seq<Entry>, key: JsString)
    ensures key in FirstKeys(adds) <==> exists m :: m in adds && m.key == key
  {
    if adds != [] {
      var last := adds[|adds| - 1];
      assert adds == adds[..|adds| - 1] + [last];
      FirstKeysAreTheKeys(adds[..|adds| - 1], key);
      assert last in adds;
    }
  }

  lemma {:induction false} FirstKeysAreDistinct(adds: seq<Entry>)
    ensures forall i, j :: 0 <= i < j < |FirstKeys(adds)| ==> FirstKeys(adds)[i] != FirstKeys(adds)[j]
  {
    if adds != [] {
      FirstKeysAreDistinct(adds[..|adds| - 1]);
    }
  }

  /** A key keeps its place: later adds only append new keys. */
  lemma {:induction false} FirstKeysGrow(adds: seq<Entry>, more: seq<Entry>)
    ensures FirstKeys(adds) <= FirstKeys(adds + more)
  {
    if more == [] {
      assert adds + more == adds;
    } else {
      FirstKeysGrow(adds, more[..|more| - 1]);
      assert (adds + more)[..|adds + more| - 1] == adds + more[..|more| - 1];
    }
  }

  /** The one entry that all metrics added under `key` become. */
  function Merged(adds: seq<Entry>, key: JsString): Distribution
    requires key in FirstKeys(adds)
  {
    FirstWith(adds, key).(points := PointsFor(adds, key))
  }

  /** `entries` has one entry per key, in first-add order, each merged from all its metrics. */
  ghost predicate Groups(entries: seq<Entry>, adds: seq<Entry>) {
    && |entries| == |FirstKeys(adds)|
    && forall i :: 0 <= i < |entries| ==> IsEntryOf(entries[i], adds, FirstKeys(adds)[i])
  }

  predicate IsEntryOf(entry: Entry, adds: seq<Entry>, key: JsString)
    requires key in FirstKeys(adds)
  {
    entry.key == key && entry.metric == Merged(adds, key)
  }

  /** The record that reports everything added under `key`. */
  function RecordFor(adds: seq<Entry>, key: JsString): APIMetric
    requires key in FirstKeys(adds)
  {
    var first := FirstWith(adds, key);
    APIMetric(first.name, first.tags, DistributionType(), ToAPIPoints(PointsFor(adds, key)))
  }

  /** The record carries the name and the tags of the first metric added under the key, and
      each point added under it, in order: its value, and the second its time lies in. */
  predicate Reports(record: APIMetric, adds: seq<Entry>, key: JsString)
    requires key in FirstKeys(adds)
  {
    var points := PointsFor(adds, key);
    && record.metric == FirstWith(adds, key).name && record.tags == FirstWith(adds, key).tags
    && record.metricType == Units("distribution")
    && |record.points| == |points|
    && forall i :: 0 <= i < |points| ==>
         && record.points[i].value == points[i].value
         && record.points[i].unixSeconds * 1000 <= points[i].timestampMs < (record.points[i].unixSeconds + 1) * 1000
  }

  lemma RecordReports(adds: seq<Entry>, key: JsString)
    requires key in FirstKeys(adds)
    ensures Reports(RecordFor(adds, key), adds, key)
  {
    var points, record := PointsFor(adds, key), RecordFor(adds, key);
    forall i | 0 <= i < |points| ensures record.points[i] == ToAPIPoint(points[i]) {
    }
  }

  /** `FirstWith` is the metric that was added first under the key. */
  lemma {:induction false} FirstWithIsFirst(adds: seq<Entry>, key: JsString) returns (i: nat)
    requires key in FirstKeys(adds)
    ensures i < |adds| && adds[i] == Entry(key, FirstWith(adds, key)) && forall j :: 0 <= j < i ==> adds[j].key != key
  {
    var n := |adds| - 1;
    var earlier := adds[..n];
    FirstKeysAreTheKeys(earlier, key);
    if key in FirstKeys(earlier) {
      i := FirstWithIsFirst(earlier, key);
    } else {
      i := n;
      forall j | 0 <= j < n ensures adds[j].key != key {
        assert earlier[j] in earlier;
      }
    }
  }

  /** The request that sends a batch: one record per key, in first-add order. */
  function ApiView(adds: seq<Entry>): (records: seq<APIMetric>)
    ensures |records| == |FirstKeys(adds)|
    ensures forall i :: 0 <= i < |records| ==> records[i] == RecordFor(adds, FirstKeys(adds)[i])
  {
    var keys := FirstKeys(adds);
    seq(|keys|, i requires 0 <= i < |keys| => RecordFor(adds, keys[i]))
  }

  lemma NothingToSendIffNothingAdded(adds: seq<Entry>)
    ensures ApiView(adds) == [] <==> adds == []
  {
    if adds != [] {
      FirstKeysAreTheKeys(adds, adds[0].key);
    }
  }

  // ---------- one more add ----------

  lemma PointsAfterAdd(adds: seq<Entry>, add: Entry, key: JsString)
    ensures PointsFor(adds + [add], key)
         == PointsFor(adds, key) + if add.key == key then add.metric.points else []
  {
    assert (adds + [add])[..|adds|] == adds;
  }

  lemma {:induction false} PointsOfUnseenKey(adds: seq<Entry>, key: JsString)
    requires key !in FirstKeys(adds)
    ensures PointsFor(adds, key) == []
  {
    if adds != [] {
      PointsOfUnseenKey(adds[..|adds| - 1], key);
    }
  }

  lemma KeysAfterAdd(adds: seq<Entry>, add: Entry)
    ensures FirstKeys(adds + [add])
         == if add.key in FirstKeys(adds) then FirstKeys(adds) else FirstKeys(adds) + [add.key]
  {
    assert (adds + [add])[..|adds|] == adds;
  }

  lemma FirstWithAfterAdd(adds: seq<Entry>, add: Entry, key: JsString)
    requires key in FirstKeys(adds + [add])
    ensures FirstWith(adds + [add], key) == if key in FirstKeys(adds) then FirstWith(adds, key) else add.metric
  {
    assert (adds + [add])[..|adds|] == adds;
  }

  /** Adding a metric changes only the entry of its own key: a union if there is one,
      else the metric itself. */
  lemma MergedAfterAdd(adds: seq<Entry>, add: Entry, key: JsString)
    requires key in FirstKeys(adds + [add])
    ensures key == add.key && key in FirstKeys(adds) ==>
              Merged(adds + [add], key) == Merged(adds, key).Union(add.metric)
    ensures key == add.key && key !in FirstKeys(adds) ==> Merged(adds + [add], key) == add.metric
    ensures key != add.key ==>
              key in FirstKeys(adds) && Merged(adds + [add], key) == Merged(adds, key)
  {
    KeysAfterAdd(adds, add);
    FirstWithAfterAdd(adds, add, key);
    PointsAfterAdd(adds, add, key);
    if key !in FirstKeys(adds) {
      PointsOfUnseenKey(adds, key);
    }
  }

  /** On a known key, `Map.set` replaces the value at the key's old place. */
  lemma GroupsWithKnownKey(entries: seq<Entry>, adds: seq<Entry>, add: Entry, place: nat)
    requires Groups(entries, adds)
    requires place < |entries| && entries[place].key == add.key
    ensures Groups(entries[place := Entry(add.key, entries[place].metric.Union(add.metric))], adds + [add])
  {
    var keys := FirstKeys(adds);
    KeysAfterAdd(adds, add);
    FirstKeysAreDistinct(adds);
    forall i | 0 <= i < |keys|
      ensures i != place ==> IsEntryOf(entries[i], adds + [add], keys[i])
      ensures IsEntryOf(entries[place], adds, keys[place])
      ensures Merged(adds + [add], keys[place]) == entries[place].metric.Union(add.metric)
    {
      MergedAfterAdd(adds, add, keys[i]);
      MergedAfterAdd(adds, add, keys[place]);
    }
  }

  lemma NewKeyIsNew(entries: seq<Entry>, adds: seq<Entry>, key: JsString)
    requires Groups(entries, adds)
    requires forall i :: 0 <= i < |entries| ==> entries[i].key != key
    ensures key !in FirstKeys(adds)
  {
    forall i | 0 <= i < |entries| ensures FirstKeys(adds)[i] != key {
      assert IsEntryOf(entries[i], adds, FirstKeys(adds)[i]);
    }
  }

  /** On a new key, `Map.set` appends. */
  lemma GroupsWithNewKey(entries: seq<Entry>, adds: seq<Entry>, add: Entry)
    requires Groups(entries, adds)
    requires forall i :: 0 <= i < |entries| ==> entries[i].key != add.key
    ensures Groups(entries + [add], adds + [add])
  {
    var keys := FirstKeys(adds);
    NewKeyIsNew(entries, adds, add.key);
    KeysAfterAdd(adds, add);
    MergedAfterAdd(adds, add, add.key);
    forall i | 0 <= i < |keys| ensures IsEntryOf(entries[i], adds + [add], keys[i]) {
      assert IsEntryOf(entries[i], adds, keys[i]);
      MergedAfterAdd(adds, add, keys[i]);
    }
  }

  lemma EntryReports(entries: seq<Entry>, adds: seq<Entry>, i: nat)
    requires Groups(entries, adds) && i < |entries|
    ensures entries[i].metric.ToAPIMetrics() == [ApiView(adds)[i]]
  {
    assert IsEntryOf(entries[i], adds, FirstKeys(adds)[i]);
  }
}

/** src/metrics/batcher.ts: the class, with its insertion-ordered Map as a list of entries. */
module Batcher {
  import opened Sequences
  import opened JsStrings
  import opened MetricsModel
  import opened Batches

  class Batcher {
    var metrics: seq<Entry>
    ghost var added: seq<Entry>

    ghost predicate Valid()
      reads this
    {
      Groups(metrics, added)
    }

    constructor ()
      ensures Valid() && added == []
    {
      metrics := [];
      added := [];
    }

    /** `Map.get`, as the place of the key in insertion order. */
    method Find(key: JsString) returns (place: int)
      ensures -1 <= place < |metrics|
      ensures place >= 0 ==> metrics[place].key == key
      ensures place == -1 ==> forall i :: 0 <= i < |metrics| ==> metrics[i].key != key
    {
      for i := 0 to |metrics|
        invariant forall j :: 0 <= j < i ==> metrics[j].key != key
      {
        if metrics[i].key == key {
          return i;
        }
      }
      return -1;
    }

    method Add(metric: Distribution)
      requires Valid()
      modifies this
      ensures Valid() && added == old(added) + [Keyed(metric)]
    {
      var entry := Keyed(metric);
      var place := Find(entry.key);
      if place >= 0 {
        GroupsWithKnownKey(metrics, added, entry, place);
        metrics := metrics[place := Entry(entry.key, metrics[place].metric.Union(metric))];
      } else {
        GroupsWithNewKey(metrics, added, entry);
        metrics := metrics + [entry];
      }
      added := added + [entry];
    }

    method ToAPIMetrics() returns (records: seq<APIMetric>)
      requires Valid()
      ensures records == ApiView(added)
      ensures |records| == |FirstKeys(added)|
      ensures forall i :: 0 <= i < |records| ==> Reports(records[i], added, FirstKeys(added)[i])
    {
      ghost var view := ApiView(added);
      forall i | 0 <= i < |metrics| ensures metrics[i].metric.ToAPIMetrics() == [view[i]] {
        EntryReports(metrics, added, i);
      }
      records := ConcatAll(metrics, view);
      forall i | 0 <= i < |records| ensures Reports(records[i], added, FirstKeys(added)[i]) {
        RecordReports(added, FirstKeys(added)[i]);
      }
    }
  }

  /** `flatMap((metric) => metric.toAPIMetrics())` */
  method ConcatAll(entries: seq<Entry>, ghost view: seq<APIMetric>) returns (records: seq<APIMetric>)
    requires |view| == |entries|
    requires forall i :: 0 <= i < |entries| ==> entries[i].metric.ToAPIMetrics() == [view[i]]
    ensures records == view
  {
    records := [];
    for i := 0 to |entries|
      invariant records == view[..i]
    {
      TakeOneMore(view, i);
      records := records + entries[i].metric.ToAPIMetrics();
    }
  }
}
