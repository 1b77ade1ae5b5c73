/** Reading a lap off at given distances, between its bracketing samples. */
module LapResample {
  import opened Python
  import opened Reals
  import opened LapModels
  import opened LapDedup

  // ---------- Interpolation ----------

  function Ratio(a: Sample, b: Sample, d: real): real {
    var span := b.distance - a.distance;
    if span <= 0.0 then 0.0 else (d - a.distance) / span
  }

  function TimeAt(a: Sample, b: Sample, d: real): real {
    Lerp(a.time, b.time, Ratio(a, b, d))
  }

  type Values = map<Channel, real>

  /** A channel is interpolated only when both neighbours have it. */
  function ValuesAt(a: Sample, b: Sample, d: real): Values {
    var ratio := Ratio(a, b, d);
    var channels := map c | c in a.channels && c in b.channels && c != RearSlip ::
      Lerp(a.channels[c], b.channels[c], ratio);
    if a.rearSlip.None? || b.rearSlip.None? then channels
    else
      channels[RearSlip := Lerp(MeanSlip(a.rearSlip.value), MeanSlip(b.rearSlip.value), ratio)]
  }

  /** The mean magnitude over the two rear wheels. */
  function MeanSlip(slip: (real, real)): real {
    (Abs(slip.0) + Abs(slip.1)) / 2.0
  }

  function Interpolate(a: Sample, b: Sample, d: real): (real, Values) {
    (TimeAt(a, b, d), ValuesAt(a, b, d))
  }

  lemma RatioBetween(a: Sample, b: Sample, d: real)
    requires a.distance < b.distance && a.distance <= d <= b.distance
    ensures 0.0 <= Ratio(a, b, d) <= 1.0
  {
    QuotientUnit(d - a.distance, b.distance - a.distance);
  }

  lemma RatioMonotone(a: Sample, b: Sample, d: real, e: real)
    requires a.distance < b.distance && d <= e
    ensures Ratio(a, b, d) <= Ratio(a, b, e)
  {
    QuotientOrder(d - a.distance, e - a.distance, b.distance - a.distance);
  }

  // ---------- The bracketing pair ----------

  /** The resampler's inner loop: advance while the next sample is still short of d and is
      not the last one. */
  function Advance(clean: seq<Sample>, d: real, cursor: nat): (r: nat)
    requires |clean| >= 2 && cursor <= |clean| - 2
    ensures cursor <= r <= |clean| - 2
    decreases |clean| - cursor
  {
    if cursor + 1 < |clean| - 1 && clean[cursor + 1].distance < d then Advance(clean, d, cursor + 1) else cursor
  }

  /** The same search, started afresh. */
  function Bracket(clean: seq<Sample>, d: real): (r: nat)
    requires |clean| >= 2
    ensures r <= |clean| - 2
  {
    Advance(clean, d, 0)
  }

  /** Where a search may stop: everything up to the cursor is short of d, and the next sample
      is not, unless it is the last. */
  predicate StopsAt(clean: seq<Sample>, d: real, cursor: nat)
    requires |clean| >= 2
  {
    && cursor <= |clean| - 2
    && (forall i | 1 <= i <= cursor :: clean[i].distance < d)
    && (cursor == |clean| - 2 || clean[cursor + 1].distance >= d)
  }

  lemma {:induction false} AdvanceStops(clean: seq<Sample>, d: real, cursor: nat)
    requires |clean| >= 2 && cursor <= |clean| - 2
    requires forall i | 1 <= i <= cursor :: clean[i].distance < d
    ensures StopsAt(clean, d, Advance(clean, d, cursor))
    decreases |clean| - cursor
  {
    if cursor + 1 < |clean| - 1 && clean[cursor + 1].distance < d {
      AdvanceStops(clean, d, cursor + 1);
    }
  }

  lemma StopsApart(clean: seq<Sample>, d: real, b: nat, c: nat)
    requires |clean| >= 2
    ensures StopsAt(clean, d, b) && b < c <= |clean| - 2 ==> !StopsAt(clean, d, c)
  {
    if StopsAt(clean, d, b) && b < c <= |clean| - 2 {
      assert 1 <= b + 1 <= c && clean[b + 1].distance >= d;
    }
  }

  /** The bracket is the only place to stop. */
  lemma BracketUnique(clean: seq<Sample>, d: real, cursor: nat)
    requires |clean| >= 2
    ensures StopsAt(clean, d, cursor) <==> cursor == Bracket(clean, d)
  {
    AdvanceStops(clean, d, 0);
    StopsApart(clean, d, cursor, Bracket(clean, d));
    StopsApart(clean, d, Bracket(clean, d), cursor);
  }

  /** Carrying the cursor on from an earlier search finds the bracket of the larger of the
      two distances. */
  lemma CursorCarriesOn(clean: seq<Sample>, d: real, e: real)
    requires |clean| >= 2 && StrictDistances(clean)
    ensures Advance(clean, e, Bracket(clean, d)) == Bracket(clean, Max(d, e))
  {
    var c := Bracket(clean, d);
    AdvanceStops(clean, d, 0);
    if forall i | 1 <= i <= c :: clean[i].distance < e {
      AdvanceStops(clean, e, c);
      var r := Advance(clean, e, c);
      if e >= d {
        BracketUnique(clean, e, r);
      } else {
        StaysPut(clean, d, e, c);
        BracketUnique(clean, d, c);
      }
    } else {
      var i :| 1 <= i <= c && clean[i].distance >= e;
      assert clean[i].distance < d;
      StaysPut(clean, d, e, c);
    }
  }

  lemma StaysPut(clean: seq<Sample>, d: real, e: real, c: nat)
    requires |clean| >= 2 && StopsAt(clean, d, c) && e <= d
    ensures Advance(clean, e, c) == c
  {
  }

  /** Inside the span of the samples, the bracket really brackets. */
  lemma BracketBrackets(clean: seq<Sample>, d: real)
    requires |clean| >= 2 && clean[0].distance <= d <= clean[|clean| - 1].distance
    ensures var c := Bracket(clean, d);
            clean[c].distance <= d <= clean[c + 1].distance
  {
    AdvanceStops(clean, d, 0);
  }

  /** The lap read at d between its bracketing samples. */
  function ReadAt(clean: seq<Sample>, d: real): (real, Values)
    requires |clean| >= 2
  {
    var c := Bracket(clean, d);
    Interpolate(clean[c], clean[c + 1], d)
  }

  lemma ReadTimeBetween(clean: seq<Sample>, d: real)
    requires |clean| >= 2 && StrictDistances(clean) && clean[0].distance <= d <= clean[|clean| - 1].distance
    ensures var c := Bracket(clean, d);
            Min(clean[c].time, clean[c + 1].time) <= ReadAt(clean, d).0 <= Max(clean[c].time, clean[c + 1].time)
  {
    var c := Bracket(clean, d);
    BracketBrackets(clean, d);
    RatioBetween(clean[c], clean[c + 1], d);
    LerpBetween(clean[c].time, clean[c + 1].time, Ratio(clean[c], clean[c + 1], d));
  }

  /** A channel is read exactly when both bracketing samples expose it, and then lies between
      their values. */
  lemma ReadChannel(clean: seq<Sample>, d: real, channel: Channel)
    requires |clean| >= 2 && StrictDistances(clean) && clean[0].distance <= d <= clean[|clean| - 1].distance
    requires channel != RearSlip
    ensures var a, b := clean[Bracket(clean, d)], clean[Bracket(clean, d) + 1];
            var values := ReadAt(clean, d).1;
            && (channel in values <==> channel in a.channels && channel in b.channels)
            && (channel in values ==>
                  var left, right := a.channels[channel], b.channels[channel];
                  Min(left, right) <= values[channel] <= Max(left, right))
  {
    var a, b := clean[Bracket(clean, d)], clean[Bracket(clean, d) + 1];
    BracketBrackets(clean, d);
    RatioBetween(a, b, d);
    if channel in a.channels && channel in b.channels {
      LerpBetween(a.channels[channel], b.channels[channel], Ratio(a, b, d));
    }
  }

  /** The rear slip is read exactly when both bracketing samples have wheel data, lies between
      their mean magnitudes, and is never negative. */
  lemma ReadRearSlip(clean: seq<Sample>, d: real)
    requires |clean| >= 2 && StrictDistances(clean) && clean[0].distance <= d <= clean[|clean| - 1].distance
    ensures var a, b := clean[Bracket(clean, d)], clean[Bracket(clean, d) + 1];
            var values := ReadAt(clean, d).1;
            && (RearSlip in values <==> a.rearSlip.Some? && b.rearSlip.Some?)
            && (RearSlip in values ==>
                  var left, right := MeanSlip(a.rearSlip.value), MeanSlip(b.rearSlip.value);
                  0.0 <= Min(left, right) <= values[RearSlip] <= Max(left, right))
  {
    var a, b := clean[Bracket(clean, d)], clean[Bracket(clean, d) + 1];
    BracketBrackets(clean, d);
    RatioBetween(a, b, d);
    if a.rearSlip.Some? && b.rearSlip.Some? {
      LerpBetween(MeanSlip(a.rearSlip.value), MeanSlip(b.rearSlip.value), Ratio(a, b, d));
    }
  }

  predicate TimesAscend(clean: seq<Sample>) {
    forall i, j | 0 <= i <= j < |clean| :: clean[i].time <= clean[j].time
  }

  /** Read times do not go backwards when the sample times do not. */
  lemma ReadTimeMonotone(clean: seq<Sample>, d: real, e: real)
    requires |clean| >= 2 && StrictDistances(clean) && TimesAscend(clean)
    requires clean[0].distance <= d <= e <= clean[|clean| - 1].distance
    ensures ReadAt(clean, d).0 <= ReadAt(clean, e).0
  {
    var b, c := Bracket(clean, d), Bracket(clean, e);
    BracketBrackets(clean, d);
    BracketBrackets(clean, e);
    if b == c {
      var r, q := Ratio(clean[b], clean[b + 1], d), Ratio(clean[b], clean[b + 1], e);
      RatioMonotone(clean[b], clean[b + 1], d, e);
      LerpMonotone(clean[b].time, clean[b + 1].time, r, q);
    } else {
      ReadTimeBetween(clean, d);
      ReadTimeBetween(clean, e);
      assert b < c by {
        AdvanceStops(clean, d, 0);
        AdvanceStops(clean, e, 0);
      }
    }
  }

  // ---------- The resampler ----------

  /** The largest of the first i + 1 distances. */
  function Reached(distances: seq<real>, i: nat): real
    requires i < |distances|
  {
    if i == 0 then distances[0] else Max(Reached(distances, i - 1), distances[i])
  }

  predicate Ascending(distances: seq<real>) {
    forall i, j | 0 <= i <= j < |distances| :: distances[i] <= distances[j]
  }

  lemma {:induction false} ReachedAscending(distances: seq<real>, i: nat)
    requires i < |distances| && Ascending(distances)
    ensures Reached(distances, i) == distances[i]
  {
    if i > 0 {
      ReachedAscending(distances, i - 1);
    }
  }

  function ReadAll(clean: seq<Sample>, distances: seq<real>): (r: seq<(real, Values)>)
    requires |clean| >= 2
    ensures |r| == |distances|
    ensures forall i | 0 <= i < |distances| :: r[i] == ReadAt(clean, distances[i])
  {
    seq(|distances|, i requires 0 <= i < |distances| => ReadAt(clean, distances[i]))
  }

  /** What resampling an ascending grid amounts to: an independent search at each point. */
  function Resampled(samples: seq<Sample>, distances: seq<real>): Result<seq<(real, Values)>> {
    var clean := Deduplicate(samples);
    if |clean| < 2 then Err(ValueError) else Ok(ReadAll(clean, distances))
  }

  /** Point i read at the bracket of the largest distance so far. */
  function CursorRead(clean: seq<Sample>, distances: seq<real>, i: nat): (real, Values)
    requires |clean| >= 2 && i < |distances|
  {
    var c := Bracket(clean, Reached(distances, i));
    Interpolate(clean[c], clean[c + 1], distances[i])
  }

  lemma CursorReadsAscending(clean: seq<Sample>, distances: seq<real>, values: seq<(real, Values)>)
    requires |clean| >= 2 && Ascending(distances) && |values| == |distances|
    requires forall i | 0 <= i < |values| :: values[i] == CursorRead(clean, distances, i)
    ensures values == ReadAll(clean, distances)
  {
    forall i | 0 <= i < |values| ensures values[i] == ReadAt(clean, distances[i]) {
      ReachedAscending(distances, i);
    }
  }

  /** One forward cursor over the cleaned samples. For any grid whatever, each point is read
      at the bracket of the largest distance so far; on an ascending grid that is the same
      as searching for each point on its own. */
  method Resample(samples: seq<Sample>, distances: seq<real>) returns (output: Result<seq<(real, Values)>>)
    ensures var clean := Deduplicate(samples);
            if |clean| < 2 then output == Err(ValueError)
            else output.Ok? && |output.value| == |distances|
                 && forall i | 0 <= i < |distances| :: output.value[i] == CursorRead(clean, distances, i)
    ensures Ascending(distances) ==> output == Resampled(samples, distances)
  {
    var clean := DeduplicateSamples(samples);
    if |clean| < 2 {
      return Err(ValueError);
    }
    DeduplicateRepresents(samples);
    var values := ReadGrid(clean, distances);
    if Ascending(distances) {
      CursorReadsAscending(clean, distances, values);
    }
    output := Ok(values);
  }

  method ReadGrid(clean: seq<Sample>, distances: seq<real>) returns (values: seq<(real, Values)>)
    requires |clean| >= 2 && StrictDistances(clean)
    ensures |values| == |distances|
    ensures forall i | 0 <= i < |distances| :: values[i] == CursorRead(clean, distances, i)
  {
    values := [];
    var cursor := 0;
    for i := 0 to |distances|
      invariant 0 <= cursor <= |clean| - 2
      invariant cursor == if i == 0 then 0 else Bracket(clean, Reached(distances, i - 1))
      invariant |values| == i
      invariant forall j | 0 <= j < i :: values[j] == CursorRead(clean, distances, j)
    {
      cursor := MoveCursor(clean, distances[i], cursor);
      if i > 0 {
        CursorCarriesOn(clean, Reached(distances, i - 1), distances[i]);
      }
      var value := Interpolate(clean[cursor], clean[cursor + 1], distances[i]);
      assert value == CursorRead(clean, distances, i);
      values := values + [value];
    }
  }

  method MoveCursor(clean: seq<Sample>, distance: real, start: nat) returns (cursor: nat)
    requires |clean| >= 2 && start <= |clean| - 2
    ensures cursor == Advance(clean, distance, start)
  {
    cursor := start;
    while cursor + 1 < |clean| - 1 && clean[cursor + 1].distance < distance
      invariant start <= cursor <= |clean| - 2
      invariant Advance(clean, distance, cursor) == Advance(clean, distance, start)
    {
      cursor := cursor + 1;
    }
  }
}
