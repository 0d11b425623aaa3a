/** Paging over Chroma results: offset and threshold on a ranking, and scrolling to the end. */
module ChromaPaging {
  import opened Common
  import opened Ordering
  import opened ChromaPayload

  /** One row of a query answer. */
  datatype Hit = Hit(id: string, distance: real, metadata: Dict)

  datatype Point = Point(id: string, score: real, payload: Dict)

  function Score(h: Hit): real { 1.0 - h.distance }

  /** Queries answer with the nearest points first. */
  ghost predicate Ranked(hits: seq<Hit>) {
    (forall i, j :: 0 <= i < j < |hits| ==> hits[i].distance <= hits[j].distance) &&
    (forall i :: 0 <= i < |hits| ==> DistinctKeys(hits[i].metadata))
  }

  function ToPoint(h: Hit): Point { Point(h.id, Score(h), Unflattened(h.metadata)) }

  /** Python's `s[:n]` and `s[n:]` for a count n >= 0. */
  function Take<T>(s: seq<T>, n: nat): seq<T> { if n <= |s| then s[..n] else s }

  function Drop<T>(s: seq<T>, n: nat): seq<T> { if n <= |s| then s[n..] else [] }

  /** A missing threshold and a threshold of 0.0 both switch the filter off: 0.0 is falsy. */
  predicate Passes(h: Hit, threshold: Option<real>) {
    threshold.None? || threshold.value == 0.0 || Score(h) >= threshold.value
  }

  /** What the threshold is documented to mean: a minimum score. */
  predicate MeetsMinimum(h: Hit, threshold: Option<real>) {
    threshold.None? || Score(h) >= threshold.value
  }

  function Keep(hits: seq<Hit>, threshold: Option<real>): seq<Point> {
    if hits == [] then []
    else (if Passes(hits[0], threshold) then [ToPoint(hits[0])] else []) + Keep(hits[1..], threshold)
  }

  /** The reference: the points that meet the minimum, in rank order. */
  function Qualified(hits: seq<Hit>, threshold: Option<real>): seq<Point> {
    if hits == [] then []
    else (if MeetsMinimum(hits[0], threshold) then [ToPoint(hits[0])] else []) + Qualified(hits[1..], threshold)
  }

  lemma {:induction false} KeepAppend(a: seq<Hit>, b: seq<Hit>, t: Option<real>)
    ensures Keep(a + b, t) == Keep(a, t) + Keep(b, t)
  {
    if a == [] {
      assert a + b == b;
    } else {
      assert (a + b)[1..] == a[1..] + b;
      KeepAppend(a[1..], b, t);
    }
  }

  method ParseSearchResults(results: seq<Hit>, threshold: Option<real>) returns (parsed: seq<Point>)
    requires forall i :: 0 <= i < |results| ==> DistinctKeys(results[i].metadata)
    ensures parsed == Keep(results, threshold)
  {
    parsed := [];
    for n := 0 to |results|
      invariant parsed == Keep(results[..n], threshold)
    {
      assert results[..n + 1] == results[..n] + [results[n]];
      KeepAppend(results[..n], [results[n]], threshold);
      var score := 1.0 - results[n].distance;
      if threshold.Some? && threshold.value != 0.0 && score < threshold.value {
        continue;
      }
      var payload := UnflattenPayload(results[n].metadata);
      parsed := parsed + [Point(results[n].id, score, payload)];
    }
    assert results[..|results|] == results;
  }

  /** `ranking` is every matching point; the query hands over its first `limit + offset`. */
  method SearchWithFilter(ranking: seq<Hit>, limit: nat, threshold: Option<real>, offset: Option<nat>)
    returns (page: seq<Point>)
    requires Ranked(ranking)
    ensures page == Found(ranking, limit, threshold, offset)
  {
    var fetchLimit := limit + (match offset case Some(n) => n case None => 0);
    var results := Take(ranking, fetchLimit);
    var parsed := ParseSearchResults(results, threshold);
    if offset.Some? && offset.value != 0 && parsed != [] {
      parsed := Drop(parsed, offset.value);
    }
    page := if parsed != [] then Take(parsed, limit) else [];
  }

  function OffsetOf(offset: Option<nat>): nat {
    match offset case Some(n) => n case None => 0
  }

  function Found(ranking: seq<Hit>, limit: nat, threshold: Option<real>, offset: Option<nat>): seq<Point> {
    Take(Drop(Keep(Take(ranking, limit + OffsetOf(offset)), threshold), OffsetOf(offset)), limit)
  }

  /** On a ranking a threshold keeps a prefix: once a point fails, all later ones fail. */
  lemma {:induction false} FailedTail(hits: seq<Hit>, t: Option<real>)
    requires Ranked(hits) && hits != [] && !MeetsMinimum(hits[0], t)
    ensures Qualified(hits, t) == []
  {
    if |hits| > 1 {
      assert hits[0].distance <= hits[1].distance;
      FailedTail(hits[1..], t);
    }
  }

  /** So filtering the first n is taking n of the filtered. */
  lemma {:induction false} QualifiedTake(hits: seq<Hit>, n: nat, t: Option<real>)
    requires Ranked(hits)
    ensures Qualified(Take(hits, n), t) == Take(Qualified(hits, t), n)
  {
    if hits != [] && n > 0 {
      assert Take(hits, n)[1..] == Take(hits[1..], n - 1);
      QualifiedTake(hits[1..], n - 1, t);
      if !MeetsMinimum(hits[0], t) { FailedTail(hits, t); }
    }
  }

  lemma {:induction false} KeepIsQualified(hits: seq<Hit>, t: Option<real>)
    requires t != Some(0.0)
    ensures Keep(hits, t) == Qualified(hits, t)
  {
    if hits != [] { KeepIsQualified(hits[1..], t); }
  }

  lemma {:induction false} QualifiedLength(hits: seq<Hit>, t: Option<real>)
    requires Ranked(hits)
    ensures |Qualified(hits, t)| <= |hits|
    ensures forall i :: 0 <= i < |hits| ==> (i < |Qualified(hits, t)| <==> MeetsMinimum(hits[i], t))
    ensures forall i :: 0 <= i < |Qualified(hits, t)| ==> Qualified(hits, t)[i] == ToPoint(hits[i])
  {
    if hits != [] {
      QualifiedLength(hits[1..], t);
      if !MeetsMinimum(hits[0], t) {
        FailedTail(hits, t);
      }
      forall i | 1 <= i < |hits| ensures i < |Qualified(hits, t)| <==> MeetsMinimum(hits[i], t) {
        assert hits[i] == hits[1..][i - 1];
        assert hits[0].distance <= hits[i].distance;
      }
    }
  }

  lemma {:induction false} KeepAll(hits: seq<Hit>, t: Option<real>)
    requires t == Some(0.0)
    ensures |Keep(hits, t)| == |hits|
    ensures forall i :: 0 <= i < |hits| ==> Keep(hits, t)[i] == ToPoint(hits[i])
  {
    if hits != [] { KeepAll(hits[1..], t); }
  }

  /** The page asked for: skip `offset`, take `limit`, among the points that meet the minimum. */
  function Wanted(ranking: seq<Hit>, limit: nat, threshold: Option<real>, offset: Option<nat>): seq<Point> {
    Take(Drop(Qualified(ranking, threshold), OffsetOf(offset)), limit)
  }

  /** Points `o` to `o + n` of a list, as an index range. */
  lemma SliceAt<T>(s: seq<T>, o: nat, n: nat)
    ensures Take(Drop(s, o), n) == if o <= |s| then s[o..Min(|s|, o + n)] else []
  {
  }

  lemma Overfetched<T>(s: seq<T>, o: nat, n: nat)
    ensures Take(Drop(Take(s, n + o), o), n) == Take(Drop(s, o), n)
  {
    SliceAt(Take(s, n + o), o, n);
    SliceAt(s, o, n);
  }

  /** Every score on the page that starts at `o` is at least zero. */
  ghost predicate PageNonNegative(ranking: seq<Hit>, limit: nat, o: nat) {
    forall i :: o <= i < |ranking| && i < o + limit ==> Score(ranking[i]) >= 0.0
  }

  /** Over-fetching, filtering and slicing gives the page asked for, for every ranking, limit and
      offset, unless the threshold is 0.0 and a negative score falls on the page. */
  lemma PageIsWanted(ranking: seq<Hit>, limit: nat, threshold: Option<real>, offset: Option<nat>)
    requires Ranked(ranking)
    ensures Found(ranking, limit, threshold, offset) == Wanted(ranking, limit, threshold, offset)
       <==> threshold != Some(0.0) || PageNonNegative(ranking, limit, OffsetOf(offset))
  {
    var o := OffsetOf(offset);
    if threshold != Some(0.0) {
      KeepIsQualified(Take(ranking, limit + o), threshold);
      QualifiedTake(ranking, limit + o, threshold);
      Overfetched(Qualified(ranking, threshold), o, limit);
    } else {
      ZeroThresholdPage(ranking, limit, offset);
    }
  }

  lemma ZeroThresholdFound(ranking: seq<Hit>, limit: nat, offset: Option<nat>, o: nat)
    requires Ranked(ranking) && o == OffsetOf(offset)
    ensures |Found(ranking, limit, Some(0.0), offset)| == if o <= |ranking| then Min(|ranking|, o + limit) - o else 0
    ensures forall i :: 0 <= i < |Found(ranking, limit, Some(0.0), offset)| ==>
              Found(ranking, limit, Some(0.0), offset)[i] == ToPoint(ranking[o + i])
  {
    var first := Take(ranking, limit + o);
    KeepAll(first, Some(0.0));
    FoundSlice(first, ranking, Keep(first, Some(0.0)), o, limit);
  }

  lemma FoundSlice(first: seq<Hit>, ranking: seq<Hit>, kept: seq<Point>, o: nat, limit: nat)
    requires first == Take(ranking, limit + o) && |kept| == |first|
    requires forall i :: 0 <= i < |kept| ==> kept[i] == ToPoint(first[i])
    ensures |Take(Drop(kept, o), limit)| == if o <= |ranking| then Min(|ranking|, o + limit) - o else 0
    ensures forall i :: 0 <= i < |Take(Drop(kept, o), limit)| ==> Take(Drop(kept, o), limit)[i] == ToPoint(ranking[o + i])
  {
    SliceAt(kept, o, limit);
  }

  lemma ZeroThresholdWanted(ranking: seq<Hit>, limit: nat, offset: Option<nat>, o: nat) returns (q: nat)
    requires Ranked(ranking) && o == OffsetOf(offset)
    ensures q <= |ranking|
    ensures forall i :: 0 <= i < |ranking| ==> (i < q <==> Score(ranking[i]) >= 0.0)
    ensures |Wanted(ranking, limit, Some(0.0), offset)| == if o <= q then Min(q, o + limit) - o else 0
    ensures forall i :: 0 <= i < |Wanted(ranking, limit, Some(0.0), offset)| ==>
              Wanted(ranking, limit, Some(0.0), offset)[i] == ToPoint(ranking[o + i])
  {
    q := |Qualified(ranking, Some(0.0))|;
    QualifiedLength(ranking, Some(0.0));
    SliceAt(Qualified(ranking, Some(0.0)), o, limit);
  }

  lemma ZeroThresholdPage(ranking: seq<Hit>, limit: nat, offset: Option<nat>)
    requires Ranked(ranking)
    ensures Found(ranking, limit, Some(0.0), offset) == Wanted(ranking, limit, Some(0.0), offset)
       <==> PageNonNegative(ranking, limit, OffsetOf(offset))
  {
    var o := OffsetOf(offset);
    ZeroThresholdFound(ranking, limit, offset, o);
    var q := ZeroThresholdWanted(ranking, limit, offset, o);
    var found, wanted := Found(ranking, limit, Some(0.0), offset), Wanted(ranking, limit, Some(0.0), offset);
    SamePage(ranking, limit, o, q, found, wanted);
  }

  lemma SamePage(ranking: seq<Hit>, limit: nat, o: nat, q: nat, found: seq<Point>, wanted: seq<Point>)
    requires q <= |ranking|
    requires forall i :: 0 <= i < |ranking| ==> (i < q <==> Score(ranking[i]) >= 0.0)
    requires |found| == if o <= |ranking| then Min(|ranking|, o + limit) - o else 0
    requires |wanted| == if o <= q then Min(q, o + limit) - o else 0
    requires forall i :: 0 <= i < |found| ==> found[i] == ToPoint(ranking[o + i])
    requires forall i :: 0 <= i < |wanted| ==> wanted[i] == ToPoint(ranking[o + i])
    ensures found == wanted <==> PageNonNegative(ranking, limit, o)
  {
    var page := Min(|ranking|, o + limit);
    if PageNonNegative(ranking, limit, o) {
      if o < page { assert Score(ranking[page - 1]) >= 0.0; }
      assert |found| == |wanted|;
    } else {
      var i :| o <= i < |ranking| && i < o + limit && Score(ranking[i]) < 0.0;
      assert q <= i;
      assert |wanted| < |found|;
    }
  }

  /** A threshold of 0.0 lets a negative score through. */
  lemma ZeroThresholdIgnored()
    ensures exists r :: Ranked(r) && Found(r, 1, Some(0.0), None) != Wanted(r, 1, Some(0.0), None)
  {
    var r := [Hit("p", 2.0, [])];
    assert Score(r[0]) < 0.0;
    PageIsWanted(r, 1, Some(0.0), None);
  }

  // ---------------------------------------------------------------- scroll

  datatype Stored = Stored(id: string, metadata: Dict)

  datatype Scrolled = Scrolled(id: string, payload: Option<Dict>)

  function Shown(p: Stored, withPayload: bool): Scrolled {
    Scrolled(p.id, if withPayload then Some(Unflattened(p.metadata)) else None)
  }

  /** One call: the page from the cursor, each point with its payload decoded, and the next cursor if
      the page was full. */
  method Scroll(stored: seq<Stored>, limit: nat, offsetId: Option<nat>, withPayload: bool)
    returns (points: seq<Scrolled>, next: Option<nat>)
    ensures var page := PageAt(stored, limit, OffsetOf(offsetId));
            |points| == |page| && forall i :: 0 <= i < |page| ==> points[i] == Shown(page[i], withPayload)
    ensures next == NextCursor(stored, limit, OffsetOf(offsetId))
  {
    var start := if offsetId.Some? && offsetId.value != 0 then offsetId.value else 0;
    var page := Take(Drop(stored, start), limit);
    points := [];
    for i := 0 to |page|
      invariant |points| == i
      invariant forall j :: 0 <= j < i ==> points[j] == Shown(page[j], withPayload)
    {
      points := points + [Scrolled(page[i].id, if withPayload then Some(Unflattened(page[i].metadata)) else None)];
    }
    next := None;
    if |points| == limit {
      next := Some(start + limit);
    }
  }

  function PageAt<P>(stored: seq<P>, limit: nat, start: nat): seq<P> { Take(Drop(stored, start), limit) }

  function NextCursor<P>(stored: seq<P>, limit: nat, start: nat): Option<nat> {
    if |PageAt(stored, limit, start)| == limit then Some(start + limit) else None
  }

  /** The pages a caller sees who follows `next_offset` until it is None. */
  function ScrollAll<P>(stored: seq<P>, limit: nat, start: nat): seq<seq<P>>
    requires limit >= 1
    decreases if start <= |stored| then |stored| - start + 1 else 0
  {
    var page, next := PageAt(stored, limit, start), NextCursor(stored, limit, start);
    if next.None? then [page] else [page] + ScrollAll(stored, limit, next.value)
  }

  lemma ScrollOn<P>(stored: seq<P>, limit: nat, start: nat)
    requires limit >= 1 && start + limit <= |stored|
    ensures ScrollAll(stored, limit, start) == [stored[start..start + limit]] + ScrollAll(stored, limit, start + limit)
  {
    SliceAt(stored, start, limit);
  }

  lemma ScrollEnds<P>(stored: seq<P>, limit: nat, start: nat)
    requires limit >= 1 && start <= |stored| < start + limit
    ensures ScrollAll(stored, limit, start) == [stored[start..]]
  {
    SliceAt(stored, start, limit);
  }

  /** The stored points, cut every `limit`; the last piece is short, and may be empty. */
  function Pages<P>(stored: seq<P>, limit: nat, start: nat): seq<seq<P>>
    requires limit >= 1 && start <= |stored|
    decreases |stored| - start
  {
    if start + limit > |stored| then [stored[start..]]
    else [stored[start..start + limit]] + Pages(stored, limit, start + limit)
  }

  lemma PagesOn<P>(stored: seq<P>, limit: nat, start: nat)
    requires limit >= 1 && start + limit <= |stored|
    ensures Pages(stored, limit, start) == [stored[start..start + limit]] + Pages(stored, limit, start + limit)
  {
  }

  lemma {:induction false} ScrollIsPages<P>(stored: seq<P>, limit: nat, start: nat)
    requires limit >= 1 && start <= |stored|
    ensures ScrollAll(stored, limit, start) == Pages(stored, limit, start)
    decreases |stored| - start
  {
    if start + limit > |stored| {
      ScrollEnds(stored, limit, start);
    } else {
      ScrollIsPages(stored, limit, start + limit);
      ScrollOn(stored, limit, start);
      PagesOn(stored, limit, start);
    }
  }

  lemma {:induction false} PagesJoin<P>(stored: seq<P>, limit: nat, start: nat)
    requires limit >= 1 && start <= |stored|
    ensures Flatten(Pages(stored, limit, start)) == stored[start..]
    decreases |stored| - start
  {
    if start + limit > |stored| {
      FlattenOne(stored[start..]);
    } else {
      PagesJoin(stored, limit, start + limit);
      FlattenCut(stored, start, start + limit, Pages(stored, limit, start + limit));
    }
  }

  lemma {:induction false} PagesCount<P>(stored: seq<P>, limit: nat, start: nat)
    requires limit >= 1 && start <= |stored|
    ensures |Pages(stored, limit, start)| == (|stored| - start) / limit + 1
    decreases |stored| - start
  {
    if start + limit > |stored| {
      QuotientUnique(|stored| - start, limit, 0);
    } else {
      PagesCount(stored, limit, start + limit);
      DivStep(|stored| - start, limit);
    }
  }

  /** Scrolling meets every point once and in order, in exactly n / limit + 1 calls. */
  lemma ScrollCoversAll<P>(stored: seq<P>, limit: nat, start: nat)
    requires limit >= 1 && start <= |stored|
    ensures Flatten(ScrollAll(stored, limit, start)) == stored[start..]
    ensures |ScrollAll(stored, limit, start)| == (|stored| - start) / limit + 1
  {
    ScrollIsPages(stored, limit, start);
    PagesJoin(stored, limit, start);
    PagesCount(stored, limit, start);
  }
}
