/** Payloads in Chroma: metadata holds scalars only, so lists and dicts travel as JSON text. */
module ChromaPayload {
  import opened Ordering
  import opened Json
  import opened JsonRoundTrip

  /** A Python dict with string keys, in insertion order. */
  type Dict = seq<Pair<Value>>

  predicate IsScalar(v: Value) { v.Str? || v.Int? || v.Float? || v.Bool? }

  /** What `_flatten_payload` stores for one value. */
  function FlatValue(v: Value): (r: Value)
    ensures IsScalar(r)
  {
    match v
    case Arr(_) => Str(Dumps(v, Spaced))
    case Obj(_) => Str(Dumps(v, Spaced))
    case Null => Str("")
    case _ => v
  }

  predicate StartsAsJson(s: string) { "{" <= s || "[" <= s }

  /** What `_unflatten_payload` makes of one stored value. */
  function UnflatValue(v: Value): Value {
    if v.Str? && StartsAsJson(v.s) then
      match Loads(v.s)
      case Some(x) => x
      case None => v
    else v
  }

  function Flattened(p: Dict): (r: Dict)
    ensures |r| == |p|
    ensures forall i :: 0 <= i < |p| ==> r[i] == Pair(p[i].key, FlatValue(p[i].value))
  {
    seq(|p|, i requires 0 <= i < |p| => Pair(p[i].key, FlatValue(p[i].value)))
  }

  function Unflattened(p: Dict): (r: Dict)
    ensures |r| == |p|
    ensures forall i :: 0 <= i < |p| ==> r[i] == Pair(p[i].key, UnflatValue(p[i].value))
  {
    seq(|p|, i requires 0 <= i < |p| => Pair(p[i].key, UnflatValue(p[i].value)))
  }

  method FlattenPayload(payload: Dict) returns (flat: Dict)
    requires DistinctKeys(payload)
    ensures flat == Flattened(payload)
    ensures DistinctKeys(flat) && forall i :: 0 <= i < |flat| ==> IsScalar(flat[i].value)
  {
    flat := [];
    for n := 0 to |payload|
      invariant flat == Flattened(payload[..n])
    {
      var value := payload[n].value;
      var stored: Value;
      if IsScalar(value) {
        stored := value;
      } else if value.Arr? {
        stored := Str(Dumps(value, Spaced));
      } else if value.Obj? {
        stored := Str(Dumps(value, Spaced));
      } else {
        stored := Str("");
      }
      PutNewMember(flat, Pair(payload[n].key, stored));
      flat := PutPair(flat, Pair(payload[n].key, stored));
      assert payload[..n + 1] == payload[..n] + [payload[n]];
    }
    assert payload[..|payload|] == payload;
  }

  method UnflattenPayload(metadata: Dict) returns (result: Dict)
    requires DistinctKeys(metadata)
    ensures result == Unflattened(metadata)
  {
    result := [];
    for n := 0 to |metadata|
      invariant result == Unflattened(metadata[..n])
    {
      var value := metadata[n].value;
      if value.Str? && StartsAsJson(value.s) {
        match Loads(value.s)
        case Some(x) => value := x;
        case None =>
      }
      PutNewMember(result, Pair(metadata[n].key, value));
      result := PutPair(result, Pair(metadata[n].key, value));
      assert metadata[..n + 1] == metadata[..n] + [metadata[n]];
    }
    assert metadata[..|metadata|] == metadata;
  }

  /** A text that opens with a bracket reads as a list or a dict, never as a string. */
  lemma BracketedText(s: string)
    requires StartsAsJson(s) && Loads(s).Some?
    ensures Loads(s).value.Arr? || Loads(s).value.Obj?
  {
    SkipNothing(s);
    if s[0] == '{' {
      assert ParseValue(s) == ParseObject(SkipSpace(s[1..]));
    } else {
      assert ParseValue(s) == ParseArray(SkipSpace(s[1..]));
    }
  }

  /** The values the encoding can carry: not None, and no string that is itself the JSON text
      of a list or a dict. */
  predicate Survives(v: Value) {
    !v.Null? && !(v.Str? && StartsAsJson(v.s) && Loads(v.s).Some?)
  }

  lemma ValueSurvives(v: Value)
    requires WellFormed(v)
    ensures UnflatValue(FlatValue(v)) == v <==> Survives(v)
  {
    match v
    case Arr(_) => LoadsDumps(v, Spaced);
    case Obj(_) => LoadsDumps(v, Spaced);
    case Str(s) => if StartsAsJson(s) && Loads(s).Some? { BracketedText(s); }
    case _ =>
  }

  /** A payload comes back from the store exactly when each of its top-level values survives. */
  lemma PayloadRoundTrip(p: Dict)
    requires forall i :: 0 <= i < |p| ==> WellFormed(p[i].value)
    ensures Unflattened(Flattened(p)) == p <==> forall i :: 0 <= i < |p| ==> Survives(p[i].value)
  {
    var q := Unflattened(Flattened(p));
    forall i | 0 <= i < |p| ensures q[i] == p[i] <==> Survives(p[i].value) {
      ValueSurvives(p[i].value);
      assert q[i] == Pair(p[i].key, UnflatValue(FlatValue(p[i].value)));
    }
    if forall i :: 0 <= i < |p| ==> Survives(p[i].value) {
      assert q == p;
    }
    if q == p {
      forall i | 0 <= i < |p| ensures Survives(p[i].value) { assert q[i] == p[i]; }
    }
  }

  /** Two payloads the promise does not cover: a top-level None, and a string that is JSON text. */
  lemma LostPayloads()
    ensures Unflattened(Flattened([Pair("a", Null)])) == [Pair("a", Str(""))]
    ensures Unflattened(Flattened([Pair("a", Str("[]"))])) == [Pair("a", Arr([]))]
  {
    var s := "[]";
    SkipNothing(s);
    assert s[1..] == "]";
    SkipNothing(s[1..]);
    assert s[1..][1..] == "";
    assert ParseValue(s) == Got(Arr([]), "");
    assert Unflattened(Flattened([Pair("a", Null)]))[0] == Pair("a", Str(""));
    assert Unflattened(Flattened([Pair("a", Str("[]"))]))[0] == Pair("a", Arr([]));
  }
}
