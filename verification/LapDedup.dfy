/** Cleaning a lap's samples: one per millimetre, ordered by distance. */
module LapDedup {
  import opened Python
  import opened Sorting
  import opened LapModels

  // ---------- Deduplication ----------

  /** round(distance, 3), in thousandths. */
  function DistanceKey(s: Sample): int {
    Round(1000.0 * s.distance)
  }

  predicate Usable(s: Sample) {
    s.distance >= 0.0 && s.time >= 0.0
  }

  /** Of neighbours with the same key, the last one stays. */
  function Collapse(sorted: seq<Sample>): seq<Sample> {
    if sorted == [] then []
    else
      var n := |sorted| - 1;
      var s, before := sorted[n], Collapse(sorted[..n]);
      if !Usable(s) then before
      else if before != [] && DistanceKey(before[|before| - 1]) == DistanceKey(s) then before[..|before| - 1] + [s]
      else before + [s]
  }

  function Deduplicate(samples: seq<Sample>): seq<Sample> {
    Collapse(SortSamples(samples))
  }

  predicate StrictKeys(clean: seq<Sample>) {
    forall i, j | 0 <= i < j < |clean| :: DistanceKey(clean[i]) < DistanceKey(clean[j])
  }

  predicate StrictDistances(clean: seq<Sample>) {
    forall i, j | 0 <= i < j < |clean| :: clean[i].distance < clean[j].distance
  }

  lemma KeyMonotone(a: Sample, b: Sample)
    requires a.distance <= b.distance
    ensures DistanceKey(a) <= DistanceKey(b)
  {
    RoundMonotone(1000.0 * a.distance, 1000.0 * b.distance);
  }

  /** Everything kept comes from the usable input, keys strictly increase, and each usable
      input sample is represented by the last sample of its key in the sorted order. */
  ghost predicate Represents(clean: seq<Sample>, samples: seq<Sample>) {
    && StrictKeys(clean)
    && (forall c | c in clean :: c in samples && Usable(c))
    && (forall s | s in samples && Usable(s) ::
          exists c | c in clean :: DistanceKey(c) == DistanceKey(s) && SampleLe(s, c))
  }

  lemma {:induction false} CollapseMembers(sorted: seq<Sample>)
    ensures forall c | c in Collapse(sorted) :: c in sorted && Usable(c)
  {
    if sorted != [] {
      CollapseMembers(sorted[..|sorted| - 1]);
    }
  }

  /** No kept sample comes after a later one in the key order. */
  lemma CollapseBelow(sorted: seq<Sample>, n: nat)
    requires SortedBy(SampleLe, sorted) && n < |sorted|
    ensures forall c | c in Collapse(sorted[..n]) :: SampleLe(c, sorted[n]) && DistanceKey(c) <= DistanceKey(sorted[n])
  {
    CollapseMembers(sorted[..n]);
    forall c | c in Collapse(sorted[..n]) ensures SampleLe(c, sorted[n]) && DistanceKey(c) <= DistanceKey(sorted[n]) {
      var i :| 0 <= i < n && sorted[i] == c;
      KeyMonotone(c, sorted[n]);
    }
  }

  lemma {:induction false} CollapseStrict(sorted: seq<Sample>)
    requires SortedBy(SampleLe, sorted)
    ensures StrictKeys(Collapse(sorted))
  {
    if sorted != [] {
      var n := |sorted| - 1;
      var before := Collapse(sorted[..n]);
      CollapseStrict(sorted[..n]);
      CollapseBelow(sorted, n);
      if before != [] {
        assert before[|before| - 1] in before;
      }
    }
  }

  lemma {:induction false} CollapseCovers(sorted: seq<Sample>, j: nat) returns (i: nat)
    requires SortedBy(SampleLe, sorted) && j < |sorted| && Usable(sorted[j])
    ensures i < |Collapse(sorted)|
    ensures DistanceKey(Collapse(sorted)[i]) == DistanceKey(sorted[j]) && SampleLe(sorted[j], Collapse(sorted)[i])
  {
    hide DistanceKey, Usable;
    var n := |sorted| - 1;
    var after := Collapse(sorted);
    if j == n {
      i := |after| - 1;
    } else {
      i := CollapseCovers(sorted[..n], j);
    }
  }

  lemma {:induction false} CollapseRepresents(sorted: seq<Sample>)
    requires SortedBy(SampleLe, sorted)
    ensures Represents(Collapse(sorted), sorted)
  {
    CollapseStrict(sorted);
    CollapseMembers(sorted);
    forall s | s in sorted && Usable(s)
      ensures exists c | c in Collapse(sorted) :: DistanceKey(c) == DistanceKey(s) && SampleLe(s, c)
    {
      var j :| 0 <= j < |sorted| && sorted[j] == s;
      var i := CollapseCovers(sorted, j);
      assert Collapse(sorted)[i] in Collapse(sorted);
    }
  }

  lemma StrictKeysStrictDistances(clean: seq<Sample>)
    requires StrictKeys(clean)
    ensures StrictDistances(clean)
  {
    forall i, j | 0 <= i < j < |clean| ensures clean[i].distance < clean[j].distance {
      if clean[j].distance <= clean[i].distance {
        KeyMonotone(clean[j], clean[i]);
      }
    }
  }

  /** What deduplication returns: strictly ordered, usable, and a best representative for
      every usable sample of the lap. */
  lemma DeduplicateRepresents(samples: seq<Sample>)
    ensures Represents(Deduplicate(samples), samples)
    ensures StrictDistances(Deduplicate(samples))
    ensures forall c | c in Deduplicate(samples) :: c in samples && c.distance >= 0.0 && c.time >= 0.0
  {
    SortSamplesSorted(samples);
    CollapseRepresents(SortSamples(samples));
    StrictKeysStrictDistances(Deduplicate(samples));
  }

  lemma {:induction false} CollapseOfClean(clean: seq<Sample>)
    requires StrictKeys(clean) && forall c | c in clean :: Usable(c)
    ensures Collapse(clean) == clean
  {
    if clean != [] {
      var n := |clean| - 1;
      var before := clean[..n];
      assert Usable(clean[n]) && StrictKeys(before);
      forall c | c in before ensures Usable(c) {
        assert c in clean;
      }
      CollapseOfClean(before);
      assert before != [] ==> DistanceKey(before[n - 1]) < DistanceKey(clean[n]);
      assert clean == before + [clean[n]];
    }
  }

  /** Deduplicating twice is deduplicating once: the resampler may clean cleaned samples. */
  lemma DeduplicateIdempotent(samples: seq<Sample>)
    ensures Deduplicate(Deduplicate(samples)) == Deduplicate(samples)
  {
    var clean := Deduplicate(samples);
    DeduplicateRepresents(samples);
    assert SortedBy(SampleLe, clean);
    assert TotalPreorder(SampleLe);
    SortOfSorted(SampleLe, clean);
    CollapseOfClean(clean);
  }

  lemma Representative(clean: seq<Sample>, samples: seq<Sample>, s: Sample) returns (c: Sample)
    requires Represents(clean, samples) && s in samples && Usable(s)
    ensures c in clean && DistanceKey(c) == DistanceKey(s) && SampleLe(s, c)
  {
    hide DistanceKey, Usable, SampleLe, StrictKeys;
    c :| c in clean && DistanceKey(c) == DistanceKey(s) && SampleLe(s, c);
  }

  /** Every usable sample lies within a millimetre of a kept one that does not come before it. */
  lemma DeduplicateKeepsNear(samples: seq<Sample>, s: Sample) returns (c: Sample)
    requires s in samples && s.distance >= 0.0 && s.time >= 0.0
    ensures c in Deduplicate(samples) && s.distance <= c.distance <= s.distance + 0.001
    ensures s.distance == c.distance ==> s.time <= c.time
  {
    hide Deduplicate, DistanceKey, Represents, StrictDistances;
    DeduplicateRepresents(samples);
    c := Representative(Deduplicate(samples), samples, s);
    SameKey(s, c);
  }

  /** Of three kept samples in a row the outer two are at least a millimetre apart. */
  lemma DeduplicateSpreads(samples: seq<Sample>, i: nat, j: nat)
    requires i + 2 <= j < |Deduplicate(samples)|
    ensures Deduplicate(samples)[j].distance - Deduplicate(samples)[i].distance >= 0.001
  {
    var clean := Deduplicate(samples);
    DeduplicateRepresents(samples);
    hide Deduplicate, DistanceKey;
    assert DistanceKey(clean[i]) < DistanceKey(clean[i + 1]) < DistanceKey(clean[j]);
    KeysApart(clean[i], clean[j]);
  }

  lemma KeysApart(a: Sample, b: Sample)
    requires DistanceKey(a) + 2 <= DistanceKey(b)
    ensures b.distance - a.distance >= 0.001
  {
  }

  lemma SameKey(s: Sample, c: Sample)
    requires DistanceKey(c) == DistanceKey(s)
    ensures s.distance - 0.001 <= c.distance <= s.distance + 0.001
  {
  }

  // ---------- The dictionary pass ----------

  /** The dictionary pass over the sorted samples. `order` is the dictionary's key order. */
  method DeduplicateSamples(samples: seq<Sample>) returns (clean: seq<Sample>)
    ensures clean == Deduplicate(samples)
  {
    var sorted := SortSamples(samples);
    var byDistance: map<int, Sample> := map[];
    var order: seq<int> := [];
    SortSamplesSorted(samples);
    for n := 0 to |sorted|
      invariant Tabulated(byDistance, order, Collapse(sorted[..n]))
    {
      var s := sorted[n];
      CollapseNext(byDistance, order, sorted, n);
      if s.distance < 0.0 || s.time < 0.0 {
        continue;
      }
      var key := DistanceKey(s);
      if key !in byDistance {
        order := order + [key];
      }
      byDistance := byDistance[key := s];
    }
    assert sorted[..|sorted|] == sorted;
    var le := (x: int, y: int) => x <= y;
    var keys := Sort(le, order);
    CollapseStrict(sorted);
    assert SortedBy(le, order);
    assert TotalPreorder(le);
    SortOfSorted(le, order);
    clean := seq(|keys|, i requires 0 <= i < |keys| && keys[i] in byDistance => byDistance[keys[i]]);
  }

  /** The dictionary and its key order list exactly the samples of `clean`. */
  predicate Tabulated(byDistance: map<int, Sample>, order: seq<int>, clean: seq<Sample>) {
    && |order| == |clean|
    && (forall i | 0 <= i < |order| ::
          order[i] == DistanceKey(clean[i]) && order[i] in byDistance && byDistance[order[i]] == clean[i])
    && (forall k | k in byDistance :: k in order)
  }

  /** In a tabulated, key-ordered list only the last sample can have the greatest key. */
  lemma LastHasKey(byDistance: map<int, Sample>, order: seq<int>, clean: seq<Sample>, key: int)
    requires Tabulated(byDistance, order, clean) && StrictKeys(clean)
    requires forall c | c in clean :: DistanceKey(c) <= key
    ensures key in byDistance <==> clean != [] && DistanceKey(clean[|clean| - 1]) == key
  {
    hide DistanceKey;
    if key in byDistance {
      var i :| 0 <= i < |order| && order[i] == key;
      assert clean[|clean| - 1] in clean;
    }
    if clean != [] && DistanceKey(clean[|clean| - 1]) == key {
      assert order[|clean| - 1] == key;
    }
  }

  lemma TabulateStep(byDistance: map<int, Sample>, order: seq<int>, clean: seq<Sample>, s: Sample)
    requires Tabulated(byDistance, order, clean) && StrictKeys(clean)
    requires forall c | c in clean :: DistanceKey(c) <= DistanceKey(s)
    ensures var key := DistanceKey(s);
            var n := |clean| - 1;
            && (key in byDistance <==> clean != [] && DistanceKey(clean[n]) == key)
            && Tabulated(byDistance[key := s], if key in byDistance then order else order + [key],
                         if key in byDistance then clean[..n] + [s] else clean + [s])
  {
    LastHasKey(byDistance, order, clean, DistanceKey(s));
    hide DistanceKey;
  }

  lemma CollapseNext(byDistance: map<int, Sample>, order: seq<int>, sorted: seq<Sample>, n: nat)
    requires SortedBy(SampleLe, sorted) && n < |sorted|
    requires Tabulated(byDistance, order, Collapse(sorted[..n]))
    ensures var key := DistanceKey(sorted[n]);
            var clean' := Collapse(sorted[..n + 1]);
            if !Usable(sorted[n]) then clean' == Collapse(sorted[..n])
            else Tabulated(byDistance[key := sorted[n]], if key in byDistance then order else order + [key], clean')
  {
    assert sorted[..n + 1][..n] == sorted[..n];
    CollapseStrict(sorted[..n]);
    CollapseBelow(sorted, n);
    TabulateStep(byDistance, order, Collapse(sorted[..n]), sorted[n]);
  }
}
