/** Grouping a batch of log entries into Loki streams, one for each set of labels. */
module LokiGrouping {
  import opened Ordering
  import opened Json
  import opened JsonRoundTrip
  import opened CanonicalJson

  /** A dict of labels, in insertion order. */
  type Labels = seq<Pair<string>>

  type LogLine = (string, string)

  datatype Entry = Entry(labels: Labels, values: seq<LogLine>)

  datatype Stream = Stream(labels: Labels, values: seq<LogLine>)

  /** `{**defaults, **labels}`. */
  function Merged(defaults: Labels, labels: Labels): Labels {
    if labels == [] then defaults else PutPair(Merged(defaults, labels[..|labels| - 1]), labels[|labels| - 1])
  }

  /** A label of the entry wins over a default of the same name. */
  lemma {:induction false} MergedMap(defaults: Labels, labels: Labels)
    requires DistinctKeys(defaults)
    ensures DistinctKeys(Merged(defaults, labels))
    ensures ToMap(Merged(defaults, labels)) == ToMap(defaults) + ToMap(labels)
  {
    if labels != [] {
      var front, last := labels[..|labels| - 1], labels[|labels| - 1];
      MergedMap(defaults, front);
      PutLabelMap(Merged(defaults, front), last);
      MergeLast(ToMap(defaults), ToMap(front), last.key, last.value);
    }
  }

  lemma MergeLast(d: map<string, string>, m: map<string, string>, k: string, v: string)
    ensures (d + m)[k := v] == d + m[k := v]
  {
  }

  lemma PutLabelMap(labels: Labels, p: Pair<string>)
    requires DistinctKeys(labels)
    ensures DistinctKeys(PutPair(labels, p))
    ensures ToMap(PutPair(labels, p)) == ToMap(labels)[p.key := p.value]
  {
    PutPairKeys(labels, p);
    var r, m := ToMap(PutPair(labels, p)), ToMap(labels)[p.key := p.value];
    forall q: Pair<string> ensures (q.key in r && r[q.key] == q.value) <==> (q.key in m && m[q.key] == q.value) {
      ToMapLookup(labels, q);
      ToMapLookup(PutPair(labels, p), q);
    }
    SameLookups(r, m);
  }

  lemma SameLookups(a: map<string, string>, b: map<string, string>)
    requires forall q: Pair<string> :: (q.key in a && a[q.key] == q.value) <==> (q.key in b && b[q.key] == q.value)
    ensures a == b
  {
    forall k | k in a ensures k in b && b[k] == a[k] { var q := Pair(k, a[k]); assert q.key in b; }
    forall k | k in b ensures k in a { var q := Pair(k, b[k]); assert q.key in a; }
  }

  // ---------------------------------------------------------------- the grouping key

  function LabelMembers(labels: Labels): (r: seq<Pair<Value>>)
    ensures |r| == |labels|
    ensures forall i :: 0 <= i < |r| ==> r[i] == Pair(labels[i].key, Str(labels[i].value))
  {
    seq(|labels|, i requires 0 <= i < |labels| => Pair(labels[i].key, Str(labels[i].value)))
  }

  /** `json.dumps(labels, sort_keys=True)`. */
  function LabelKey(labels: Labels): string { DumpsSorted(Obj(LabelMembers(labels)), Spaced) }

  lemma {:induction false} LabelMembersMap(labels: Labels)
    ensures ToMap(LabelMembers(labels)).Keys == ToMap(labels).Keys
    ensures forall k :: k in ToMap(labels) ==> ToMap(LabelMembers(labels))[k] == Str(ToMap(labels)[k])
  {
    if labels != [] {
      var front := labels[..|labels| - 1];
      LabelMembersMap(front);
      assert LabelMembers(labels)[..|labels| - 1] == LabelMembers(front);
    }
  }

  lemma LabelKeyIsSortedText(labels: Labels)
    ensures LabelKey(labels) == Dumps(Obj(SortPairs(LabelMembers(labels))), Spaced)
  {
    assert CanonMembers(LabelMembers(labels)) == LabelMembers(labels);
  }

  lemma SortedLabelsWellFormed(labels: Labels)
    requires DistinctKeys(labels)
    ensures WellFormed(Obj(SortPairs(LabelMembers(labels))))
  {
    var x := LabelMembers(labels);
    assert CanonMembers(x) == x;
    assert WellFormed(Obj(x));
    CanonWellFormed(Obj(x));
  }

  lemma LabelMembersSameMap(a: Labels, b: Labels)
    ensures ToMap(LabelMembers(a)) == ToMap(LabelMembers(b)) <==> ToMap(a) == ToMap(b)
  {
    LabelMembersMap(a);
    LabelMembersMap(b);
    WrappedMaps(ToMap(LabelMembers(a)), ToMap(LabelMembers(b)), ToMap(a), ToMap(b));
  }

  lemma WrappedMaps(x: map<string, Value>, y: map<string, Value>, m: map<string, string>, n: map<string, string>)
    requires x.Keys == m.Keys && forall k :: k in m ==> x[k] == Str(m[k])
    requires y.Keys == n.Keys && forall k :: k in n ==> y[k] == Str(n[k])
    ensures x == y <==> m == n
  {
    if x == y {
      assert m.Keys == n.Keys;
      forall k | k in m ensures m[k] == n[k] { assert x[k] == Str(m[k]); }
    }
  }

  /** Two entries share a key exactly when their labels are the same mapping: the key does not
      depend on the order of insertion, and no two mappings share one. */
  lemma LabelKeyIffSameMap(a: Labels, b: Labels)
    requires DistinctKeys(a) && DistinctKeys(b)
    ensures LabelKey(a) == LabelKey(b) <==> ToMap(a) == ToMap(b)
  {
    var x, y := LabelMembers(a), LabelMembers(b);
    LabelKeyIsSortedText(a);
    LabelKeyIsSortedText(b);
    SortedLabelsWellFormed(a);
    SortedLabelsWellFormed(b);
    DumpsInjective(Obj(SortPairs(x)), Obj(SortPairs(y)), Spaced);
    SortedIffSameMap(x, y);
    LabelMembersSameMap(a, b);
  }

  // ---------------------------------------------------------------- grouping

  /** A dict of streams keyed by label text, in insertion order. */
  type Streams = seq<Pair<Stream>>

  function Position(streams: Streams, key: string): (r: nat)
    ensures r <= |streams|
    ensures r < |streams| ==> streams[r].key == key
    ensures forall i :: 0 <= i < r ==> streams[i].key != key
  {
    if streams == [] || streams[0].key == key then 0 else 1 + Position(streams[1..], key)
  }

  /** Open a stream at the end, or extend the one at `i`. */
  function AddAt(streams: Streams, i: nat, key: string, e: Entry): Streams
    requires i <= |streams|
  {
    if i == |streams| then streams + [Pair(key, Stream(e.labels, e.values))]
    else streams[i := Pair(key, streams[i].value.(values := streams[i].value.values + e.values))]
  }

  function AddEntry(streams: Streams, e: Entry): Streams {
    AddAt(streams, Position(streams, LabelKey(e.labels)), LabelKey(e.labels), e)
  }

  function Grouped(batch: seq<Entry>): Streams {
    if batch == [] then [] else AddEntry(Grouped(batch[..|batch| - 1]), batch[|batch| - 1])
  }

  method GroupByLabels(batch: seq<Entry>) returns (streams: Streams)
    ensures streams == Grouped(batch)
  {
    streams := [];
    for n := 0 to |batch|
      invariant streams == Grouped(batch[..n])
    {
      assert batch[..n + 1][..n] == batch[..n];
      var labelKey := LabelKey(batch[n].labels);
      var i := Position(streams, labelKey);
      ghost var before := streams;
      if i == |streams| {
        streams := streams + [Pair(labelKey, Stream(batch[n].labels, []))];
      }
      var stream := streams[i].value;
      streams := streams[i := Pair(labelKey, stream.(values := stream.values + batch[n].values))];
      assert [] + batch[n].values == batch[n].values;
      assert streams == AddAt(before, i, labelKey, batch[n]);
    }
    assert batch[..|batch|] == batch;
  }

  ghost predicate ProperBatch(batch: seq<Entry>) {
    forall i :: 0 <= i < |batch| ==> DistinctKeys(batch[i].labels)
  }

  /** The lines of the batch that carry exactly these labels, in order. */
  function Select(batch: seq<Entry>, labels: map<string, string>): seq<LogLine> {
    if batch == [] then []
    else
      var last := batch[|batch| - 1];
      Select(batch[..|batch| - 1], labels) + if ToMap(last.labels) == labels then last.values else []
  }

  ghost predicate Occurs(batch: seq<Entry>, labels: map<string, string>) {
    exists i :: 0 <= i < |batch| && ToMap(batch[i].labels) == labels
  }

  /** The label set of stream `i`. */
  function LabelSet(streams: Streams, i: nat): map<string, string>
    requires i < |streams|
  {
    ToMap(streams[i].value.labels)
  }

  ghost predicate HasStream(streams: Streams, labels: map<string, string>) {
    exists i :: 0 <= i < |streams| && LabelSet(streams, i) == labels
  }

  ghost predicate LabelSetsDistinct(streams: Streams) {
    forall i, j :: 0 <= i < j < |streams| ==> LabelSet(streams, i) != LabelSet(streams, j)
  }

  ghost predicate StreamsSelect(batch: seq<Entry>, streams: Streams) {
    forall i :: 0 <= i < |streams| ==> streams[i].value.values == Select(batch, LabelSet(streams, i))
  }

  /** A stable partition: one stream for each label set that occurs, and no other, holding that
      set's lines in their original order. */
  ghost predicate IsPartition(batch: seq<Entry>, streams: Streams) {
    && LabelSetsDistinct(streams)
    && (forall labels :: HasStream(streams, labels) <==> Occurs(batch, labels))
    && StreamsSelect(batch, streams)
  }

  ghost predicate Keyed(streams: Streams) {
    DistinctKeys(streams) &&
    forall i :: 0 <= i < |streams| ==>
      DistinctKeys(streams[i].value.labels) && streams[i].key == LabelKey(streams[i].value.labels)
  }

  lemma {:induction false} SelectNothing(batch: seq<Entry>, labels: map<string, string>)
    requires !Occurs(batch, labels)
    ensures Select(batch, labels) == []
  {
    if batch != [] {
      var front := batch[..|batch| - 1];
      assert ToMap(batch[|batch| - 1].labels) != labels;
      assert forall i :: 0 <= i < |front| ==> front[i] == batch[i];
      SelectNothing(front, labels);
    }
  }

  lemma {:induction false} GroupingIsPartition(batch: seq<Entry>)
    requires ProperBatch(batch)
    ensures Keyed(Grouped(batch))
    ensures IsPartition(batch, Grouped(batch))
  {
    if batch != [] {
      var front, e := batch[..|batch| - 1], batch[|batch| - 1];
      assert batch == front + [e];
      GroupingIsPartition(front);
      var before, after := Grouped(front), Grouped(batch);
      var p := Position(before, LabelKey(e.labels));
      forall i | 0 <= i < |before| ensures LabelSet(before, i) == ToMap(e.labels) <==> i == p {
        LabelKeyIffSameMap(before[i].value.labels, e.labels);
      }
      AddedKeyed(before, p, LabelKey(e.labels), e);
      AddedPartition(front, e, before, p, LabelKey(e.labels));
    }
  }

  lemma AddedKeyed(before: Streams, p: nat, key: string, e: Entry)
    requires Keyed(before) && DistinctKeys(e.labels) && key == LabelKey(e.labels)
    requires p == Position(before, key)
    ensures Keyed(AddAt(before, p, key, e))
  {
  }

  /** Among the streams, the one at `p` carries the labels of `e`; if `p` is the end, none does. */
  ghost predicate Located(before: Streams, p: nat, e: Entry) {
    p <= |before| &&
    forall i :: 0 <= i < |before| ==> (LabelSet(before, i) == ToMap(e.labels) <==> i == p)
  }

  lemma AddedLabelSets(before: Streams, p: nat, key: string, e: Entry)
    requires Located(before, p, e)
    ensures var after := AddAt(before, p, key, e);
            && |after| == (if p == |before| then |before| + 1 else |before|)
            && (forall i :: 0 <= i < |before| ==> LabelSet(after, i) == LabelSet(before, i))
            && LabelSet(after, p) == ToMap(e.labels)
  {
  }

  lemma OccursAppend(front: seq<Entry>, e: Entry, labels: map<string, string>)
    ensures Occurs(front + [e], labels) <==> Occurs(front, labels) || ToMap(e.labels) == labels
  {
    var batch := front + [e];
    assert batch[|front|] == e;
    if Occurs(front, labels) {
      var i :| 0 <= i < |front| && ToMap(front[i].labels) == labels;
      assert batch[i] == front[i];
    }
    if Occurs(batch, labels) {
      var i :| 0 <= i < |batch| && ToMap(batch[i].labels) == labels;
      assert i < |front| ==> front[i] == batch[i];
    }
  }

  lemma AddedHasStream(before: Streams, p: nat, key: string, e: Entry, labels: map<string, string>)
    requires Located(before, p, e)
    ensures HasStream(AddAt(before, p, key, e), labels) <==> HasStream(before, labels) || ToMap(e.labels) == labels
  {
    var after := AddAt(before, p, key, e);
    AddedLabelSets(before, p, key, e);
    if HasStream(before, labels) {
      var i :| 0 <= i < |before| && LabelSet(before, i) == labels;
      assert LabelSet(after, i) == labels;
    }
    if HasStream(after, labels) {
      var i :| 0 <= i < |after| && LabelSet(after, i) == labels;
      assert i < |before| ==> LabelSet(before, i) == labels;
    }
  }

  lemma SelectAppend(front: seq<Entry>, e: Entry, labels: map<string, string>)
    ensures Select(front + [e], labels) == Select(front, labels) + if ToMap(e.labels) == labels then e.values else []
  {
    assert (front + [e])[..|front + [e]| - 1] == front;
  }

  lemma AddedStream(front: seq<Entry>, e: Entry, before: Streams, p: nat, key: string, i: nat)
    requires StreamsSelect(front, before) && Located(before, p, e)
    requires p == |before| ==> !Occurs(front, ToMap(e.labels))
    requires i < |AddAt(before, p, key, e)|
    ensures AddAt(before, p, key, e)[i].value.values == Select(front + [e], LabelSet(AddAt(before, p, key, e), i))
  {
    AddedLabelSets(before, p, key, e);
    SelectAppend(front, e, LabelSet(AddAt(before, p, key, e), i));
    if i == |before| {
      SelectNothing(front, ToMap(e.labels));
    }
  }

  lemma AddedPartition(front: seq<Entry>, e: Entry, before: Streams, p: nat, key: string)
    requires IsPartition(front, before) && Located(before, p, e)
    ensures IsPartition(front + [e], AddAt(before, p, key, e))
  {
    var batch, after := front + [e], AddAt(before, p, key, e);
    AddedLabelSets(before, p, key, e);
    forall labels ensures HasStream(after, labels) <==> Occurs(batch, labels) {
      AddedHasStream(before, p, key, e, labels);
      OccursAppend(front, e, labels);
    }
    assert p == |before| ==> !HasStream(before, ToMap(e.labels));
    forall i | 0 <= i < |after| ensures after[i].value.values == Select(batch, LabelSet(after, i)) {
      AddedStream(front, e, before, p, key, i);
    }
  }
}
