/** The per-event rainfall total: for each of the 64 grid points around the
    event, fetch and parse the series, and add its strictly positive readings. */
module Rainfall {
  import opened Wrappers
  import opened Grid
  import opened Query
  import opened Retry
  import opened Header

  function Sum(xs: seq<real>): real
  {
    if xs == [] then 0.0 else Sum(xs[..|xs| - 1]) + xs[|xs| - 1]
  }

  /** The readings kept by `where(Rainf > 0)`, in order: zeros, negatives and
      missing-value sentinels drop out. */
  function Positives(xs: seq<real>): (ps: seq<real>)
    ensures forall j :: 0 <= j < |ps| ==> ps[j] > 0.0
    ensures forall x :: x in ps <==> x in xs && x > 0.0
    ensures forall x :: multiset(ps)[x] == if x > 0.0 then multiset(xs)[x] else 0
  {
    if xs == [] then []
    else
      assert xs == xs[..|xs| - 1] + [xs[|xs| - 1]];
      if xs[|xs| - 1] > 0.0 then Positives(xs[..|xs| - 1]) + [xs[|xs| - 1]]
      else Positives(xs[..|xs| - 1])
  }

  /** `where(Rainf > 0).sum()`: the sum of the strictly positive readings. */
  function PositiveSum(xs: seq<real>): real
  {
    Sum(Positives(xs))
  }

  lemma {:induction false} SumOfPositives(ps: seq<real>)
    requires forall j :: 0 <= j < |ps| ==> ps[j] > 0.0
    ensures Sum(ps) >= 0.0
    ensures ps != [] ==> Sum(ps) > 0.0
  {
    if ps != [] {
      SumOfPositives(ps[..|ps| - 1]);
    }
  }

  /** The positive-only sum is never negative, and is zero exactly when no reading is positive. */
  lemma PositiveSumNonNegative(xs: seq<real>)
    ensures PositiveSum(xs) >= 0.0
    ensures PositiveSum(xs) == 0.0 <==> forall j :: 0 <= j < |xs| ==> xs[j] <= 0.0
  {
    var ps := Positives(xs);
    SumOfPositives(ps);
    if ps != [] {
      assert ps[0] in xs;
    } else {
      forall j | 0 <= j < |xs| ensures xs[j] <= 0.0 {
        assert xs[j] in xs;
      }
    }
  }

  lemma {:induction false} SumAppend(xs: seq<real>, ys: seq<real>)
    ensures Sum(xs + ys) == Sum(xs) + Sum(ys)
    decreases |ys|
  {
    if ys != [] {
      assert (xs + ys)[..|xs + ys| - 1] == xs + ys[..|ys| - 1];
      SumAppend(xs, ys[..|ys| - 1]);
    } else {
      assert xs + ys == xs;
    }
  }

  lemma {:induction false} PositivesAppend(xs: seq<real>, ys: seq<real>)
    ensures Positives(xs + ys) == Positives(xs) + Positives(ys)
    decreases |ys|
  {
    if ys != [] {
      assert (xs + ys)[..|xs + ys| - 1] == xs + ys[..|ys| - 1];
      PositivesAppend(xs, ys[..|ys| - 1]);
    } else {
      assert xs + ys == xs;
    }
  }

  /** Summing two runs of readings back to back adds their positive-only sums. */
  lemma PositiveSumAppend(xs: seq<real>, ys: seq<real>)
    ensures PositiveSum(xs + ys) == PositiveSum(xs) + PositiveSum(ys)
  {
    PositivesAppend(xs, ys);
    SumAppend(Positives(xs), Positives(ys));
  }

  /** The running total and the request counter after an aggregation, or the error that stopped it. */
  datatype Tally = Tally(result: Result<real, Error>, sent: nat)

  /** The rain at one grid point `p`: fetch its series for the event's window,
      parse it, and keep the sum of its positive readings. */
  function PointRain(c: Codecs, net: Service, p: Point, hour: int, sent: nat): Tally
  {
    var f := Fetch(net, SeriesUrl(c, p, hour), sent);
    match f.result
    case Err(e) => Tally(Err(e), f.sent)
    case Ok(text) =>
      match SeriesOf(c, text)
      case Err(e) => Tally(Err(e), f.sent)
      case Ok(series) => Tally(Ok(PositiveSum(series.1)), f.sent)
  }

  /** The readings of the series at grid point `p` and the request counter
      afterwards, when fetching and parsing it both succeed. */
  function PointReadings(c: Codecs, net: Service, p: Point, hour: int, sent: nat): Option<(seq<real>, nat)>
  {
    var f := Fetch(net, SeriesUrl(c, p, hour), sent);
    if f.result.Ok? && SeriesOf(c, f.result.value).Ok? then Some((SeriesOf(c, f.result.value).value.1, f.sent))
    else None
  }

  /** The rain at one grid point is never negative and costs one to five requests. */
  lemma PointRainBounds(c: Codecs, net: Service, p: Point, hour: int, sent: nat)
    ensures var t := PointRain(c, net, p, hour, sent);
      && sent + 1 <= t.sent <= sent + MaxAttempts
      && (t.result.Ok? ==> t.result.value >= 0.0)
  {
    FetchBounds(net, SeriesUrl(c, p, hour), sent);
    var f := Fetch(net, SeriesUrl(c, p, hour), sent);
    if f.result.Ok? && SeriesOf(c, f.result.value).Ok? {
      PositiveSumNonNegative(SeriesOf(c, f.result.value).value.1);
    }
  }

  /** One grid point of the nested loops: fetch, parse and sum its positive readings. */
  method AggregatePoint(c: Codecs, net: Service, p: Point, hour: int, sent0: nat) returns (rain: Result<real, Error>, sent: nat)
    ensures Tally(rain, sent) == PointRain(c, net, p, hour, sent0)
    ensures rain.Ok? ==> rain.value >= 0.0
    ensures sent0 + 1 <= sent <= sent0 + MaxAttempts
  {
    PointRainBounds(c, net, p, hour, sent0);
    var text, attempts := GetTimeSeries(net, SeriesUrl(c, p, hour), sent0);
    sent := sent0 + attempts;
    if text.Err? {
      return Err(text.error), sent;
    }
    var series := ParseTimeSeries(c, text.value);
    if series.Err? {
      return Err(series.error), sent;
    }
    rain := Ok(PositiveSum(series.value.1));
  }

  /** The rain at a grid point given the request counter before it. */
  type RainAt = (Point, nat) -> Tally

  /** The rain at each grid point around an event at hour `hour`. */
  function RainOf(c: Codecs, net: Service, hour: int): RainAt
  {
    (p: Point, sent: nat) => PointRain(c, net, p, hour, sent)
  }

  /** Each grid point costs one to five requests and contributes no negative rain. */
  ghost predicate Bounded(rain: RainAt)
  {
    forall p: Point, sent: nat :: sent + 1 <= rain(p, sent).sent <= sent + MaxAttempts &&
      (rain(p, sent).result.Ok? ==> rain(p, sent).result.value >= 0.0)
  }

  lemma RainOfBounded(c: Codecs, net: Service, hour: int)
    ensures Bounded(RainOf(c, net, hour))
  {
    forall p: Point, sent: nat
      ensures sent + 1 <= RainOf(c, net, hour)(p, sent).sent <= sent + MaxAttempts
      ensures RainOf(c, net, hour)(p, sent).result.Ok? ==> RainOf(c, net, hour)(p, sent).result.value >= 0.0
    {
      PointRainBounds(c, net, p, hour, sent);
    }
  }

  /** Aggregating the grid points from the `k`-th offset on around `centre`
      onto the running total `acc`, after `sent` requests of the run; the
      first error stops it. */
  function SumFrom(rain: RainAt, centre: Point, k: nat, sent: nat, acc: real): Tally
    requires k <= 64
    decreases 64 - k
  {
    if k == 64 then Tally(Ok(acc), sent)
    else
      var t := rain(GridPoint(centre, Offsets()[k]), sent);
      match t.result
      case Err(e) => Tally(Err(e), t.sent)
      case Ok(r) => SumFrom(rain, centre, k + 1, t.sent, acc + r)
  }

  /** The total of one event at `centre` and hour `hour`, over the whole grid. */
  function EventTotal(c: Codecs, net: Service, centre: Point, hour: int, sent: nat): Tally
  {
    SumFrom(RainOf(c, net, hour), centre, 0, sent, 0.0)
  }

  /** Aggregating never lowers the running total, costs one to five requests
      per grid point reached, and costs at least one per grid point when it succeeds. */
  lemma {:induction false} SumFromBounds(rain: RainAt, centre: Point, k: nat, sent: nat, acc: real)
    requires k <= 64
    requires Bounded(rain)
    ensures var t := SumFrom(rain, centre, k, sent, acc);
      && sent <= t.sent <= sent + MaxAttempts * (64 - k)
      && (t.result.Ok? ==> t.result.value >= acc && t.sent >= sent + (64 - k))
      && (t.result.Err? ==> t.sent >= sent + 1)
    decreases 64 - k
  {
    if k < 64 {
      var t := rain(GridPoint(centre, Offsets()[k]), sent);
      if t.result.Ok? {
        SumFromBounds(rain, centre, k + 1, t.sent, acc + t.result.value);
      }
    }
  }

  /** The loops from the `k`-th grid point up to, not including, the `m`-th,
      onto the running total `acc`; the first error stops them. */
  function SumUpTo(rain: RainAt, centre: Point, k: nat, m: nat, sent: nat, acc: real): Tally
    requires k <= m <= 64
    decreases m - k
  {
    if k == m then Tally(Ok(acc), sent)
    else
      var t := rain(GridPoint(centre, Offsets()[k]), sent);
      match t.result
      case Err(e) => Tally(Err(e), t.sent)
      case Ok(r) => SumUpTo(rain, centre, k + 1, m, t.sent, acc + r)
  }

  /** The loops from `k` on are the loops up to `m` followed by the loops
      from `m` on, and an error before `m` is the outcome of the whole. */
  lemma {:induction false} SumFromSplit(rain: RainAt, centre: Point, k: nat, m: nat, sent: nat, acc: real)
    requires k <= m <= 64
    ensures var p := SumUpTo(rain, centre, k, m, sent, acc);
      && (p.result.Ok? ==> SumFrom(rain, centre, k, sent, acc) == SumFrom(rain, centre, m, p.sent, p.result.value))
      && (p.result.Err? ==> SumFrom(rain, centre, k, sent, acc) == p)
    decreases m - k
  {
    if k < m {
      var t := rain(GridPoint(centre, Offsets()[k]), sent);
      if t.result.Ok? {
        SumFromSplit(rain, centre, k + 1, m, t.sent, acc + t.result.value);
      }
    }
  }

  /** Grid point `m` is the first from the `k`-th on to fail, and its outcome,
      fetched with the counter the loops reached, is `t`. */
  ghost predicate FirstFailure(rain: RainAt, centre: Point, k: nat, m: nat, sent: nat, acc: real, t: Tally)
  {
    && k <= m < 64
    && SumUpTo(rain, centre, k, m, sent, acc).result.Ok?
    && rain(GridPoint(centre, Offsets()[m]), SumUpTo(rain, centre, k, m, sent, acc).sent) == t
    && t.result.Err?
  }

  /** A failed aggregation stops at the first grid point from the `k`-th on
      that fails: every point before it succeeded, and the outcome is that
      point's error and the request counter right after it, so no later
      grid point is fetched. */
  lemma {:induction false} SumFromFailsAt(rain: RainAt, centre: Point, k: nat, sent: nat, acc: real)
    requires k <= 64
    ensures var t := SumFrom(rain, centre, k, sent, acc);
      t.result.Err? ==>
        exists m :: FirstFailure(rain, centre, k, m, sent, acc, t)
    decreases 64 - k
  {
    if k < 64 {
      var t := rain(GridPoint(centre, Offsets()[k]), sent);
      if t.result.Ok? {
        SumFromFailsAt(rain, centre, k + 1, t.sent, acc + t.result.value);
        var after := SumFrom(rain, centre, k + 1, t.sent, acc + t.result.value);
        if after.result.Err? {
          var m: nat :| FirstFailure(rain, centre, k + 1, m, t.sent, acc + t.result.value, after);
          assert SumUpTo(rain, centre, k, m, sent, acc) == SumUpTo(rain, centre, k + 1, m, t.sent, acc + t.result.value);
          assert FirstFailure(rain, centre, k, m, sent, acc, after);
        }
      } else {
        assert FirstFailure(rain, centre, k, k, sent, acc, SumFrom(rain, centre, k, sent, acc));
      }
    }
  }

  /** A failed event surfaces the outcome of the first of its grid points that
      fails: every point before it succeeded, and the event's error and request
      counter are that point's, from fetching or parsing its series, so no
      later grid point is fetched. */
  lemma EventTotalFailsAt(c: Codecs, net: Service, centre: Point, hour: int, sent: nat)
    ensures var t := EventTotal(c, net, centre, hour, sent);
      t.result.Err? ==>
        exists m :: 0 <= m < 64 && SumUpTo(RainOf(c, net, hour), centre, 0, m, sent, 0.0).result.Ok? &&
          PointRain(c, net, GridPoint(centre, Offsets()[m]), hour, SumUpTo(RainOf(c, net, hour), centre, 0, m, sent, 0.0).sent) == t
  {
    var rain := RainOf(c, net, hour);
    SumFromFailsAt(rain, centre, 0, sent, 0.0);
    var t := SumFrom(rain, centre, 0, sent, 0.0);
    if t.result.Err? {
      var m: nat :| FirstFailure(rain, centre, 0, m, sent, 0.0, t);
      var p := SumUpTo(rain, centre, 0, m, sent, 0.0);
      assert PointRain(c, net, GridPoint(centre, Offsets()[m]), hour, p.sent) == t;
    }
  }

  /** An event's total is never negative, and a completed aggregation made
      between 64 and 320 requests: one to five for each grid point. */
  lemma EventTotalBounds(c: Codecs, net: Service, centre: Point, hour: int, sent: nat)
    ensures var t := EventTotal(c, net, centre, hour, sent);
      && sent + 1 <= t.sent <= sent + MaxAttempts * 64
      && (t.result.Ok? ==> t.result.value >= 0.0 && t.sent >= sent + 64)
  {
    RainOfBounded(c, net, hour);
    SumFromBounds(RainOf(c, net, hour), centre, 0, sent, 0.0);
  }

  /** The readings at a grid point given the request counter before it, when they can be had. */
  type ReadingsAt = (Point, nat) -> Option<(seq<real>, nat)>

  /** The readings at each grid point around an event at hour `hour`. */
  function ReadingsOf(c: Codecs, net: Service, hour: int): ReadingsAt
  {
    (p: Point, sent: nat) => PointReadings(c, net, p, hour, sent)
  }

  /** The readings of the grid points from the `k`-th offset on, one series
      after the other in visiting order, and the request counter afterwards,
      when every one of them can be had. */
  function ReadingsFrom(readings: ReadingsAt, centre: Point, k: nat, sent: nat): Option<(seq<real>, nat)>
    requires k <= 64
    decreases 64 - k
  {
    if k == 64 then Some(([], sent))
    else
      match readings(GridPoint(centre, Offsets()[k]), sent)
      case None => None
      case Some(first) =>
        match ReadingsFrom(readings, centre, k + 1, first.1)
        case None => None
        case Some(rest) => Some((first.0 + rest.0, rest.1))
  }

  /** One grid point's rain is the positive-only sum of its series' readings,
      and it fails exactly when those readings cannot be had. */
  lemma PointRainIsPositiveSum(c: Codecs, net: Service, p: Point, hour: int, sent: nat)
    ensures var t := PointRain(c, net, p, hour, sent);
      var rd := PointReadings(c, net, p, hour, sent);
      && (t.result.Ok? <==> rd.Some?)
      && (rd.Some? ==> t == Tally(Ok(PositiveSum(rd.value.0)), rd.value.1))
  {
  }

  /** A value of a run of readings that adds up over runs placed back to
      back, as the positive-only sum does. */
  ghost predicate Additive(value: seq<real> -> real)
  {
    && value([]) == 0.0
    && forall xs: seq<real>, ys: seq<real> :: value(xs + ys) == value(xs) + value(ys)
  }

  lemma PositiveSumAdditive()
    ensures Additive(PositiveSum)
  {
    assert Positives([]) == [];
    forall xs: seq<real>, ys: seq<real> ensures PositiveSum(xs + ys) == PositiveSum(xs) + PositiveSum(ys) {
      PositiveSumAppend(xs, ys);
    }
  }

  /** At grid point `p`, after `sent` requests, the rain is the `value` of the
      readings, and fails exactly when the readings cannot be had. */
  ghost predicate PointSumsReadings(rain: RainAt, readings: ReadingsAt, value: seq<real> -> real, p: Point, sent: nat)
  {
    && (rain(p, sent).result.Ok? <==> readings(p, sent).Some?)
    && (readings(p, sent).Some? ==>
      rain(p, sent) == Tally(Ok(value(readings(p, sent).value.0)), readings(p, sent).value.1))
  }

  /** The same at every grid point and request count. */
  ghost predicate SumsReadings(rain: RainAt, readings: ReadingsAt, value: seq<real> -> real)
  {
    forall p: Point, sent: nat :: PointSumsReadings(rain, readings, value, p, sent)
  }

  /** At every grid point of an event, the rain is the positive-only sum of
      the readings, and fails exactly when they cannot be had. */
  lemma RainOfSumsReadings(c: Codecs, net: Service, hour: int)
    ensures SumsReadings(RainOf(c, net, hour), ReadingsOf(c, net, hour), PositiveSum)
  {
    forall p: Point, sent: nat
      ensures PointSumsReadings(RainOf(c, net, hour), ReadingsOf(c, net, hour), PositiveSum, p, sent)
    {
      PointRainIsPositiveSum(c, net, p, hour, sent);
    }
  }

  /** Aggregating from the `k`-th grid point on succeeds exactly when the
      readings of all the remaining points can be had. */
  lemma {:induction false} SumFromOkIffReadings(rain: RainAt, readings: ReadingsAt, value: seq<real> -> real,
                                                 centre: Point, k: nat, sent: nat, acc: real)
    requires k <= 64
    requires SumsReadings(rain, readings, value)
    ensures SumFrom(rain, centre, k, sent, acc).result.Ok? <==> ReadingsFrom(readings, centre, k, sent).Some?
    decreases 64 - k
  {
    if k < 64 {
      var p := GridPoint(centre, Offsets()[k]);
      var first := readings(p, sent);
      assert PointSumsReadings(rain, readings, value, p, sent);
      if first.Some? {
        SumFromOkIffReadings(rain, readings, value, centre, k + 1, first.value.1, acc + value(first.value.0));
      }
    }
  }

  /** When the readings of all the remaining points can be had, aggregating
      from the `k`-th grid point on adds to the running total `acc` the
      `value` of those readings taken together, in visiting order. */
  lemma {:induction false} SumFromIsValueOfReadings(rain: RainAt, readings: ReadingsAt, value: seq<real> -> real,
                                                     centre: Point, k: nat, sent: nat, acc: real)
    requires k <= 64
    requires Additive(value) && SumsReadings(rain, readings, value)
    requires ReadingsFrom(readings, centre, k, sent).Some?
    ensures var rd := ReadingsFrom(readings, centre, k, sent).value;
      SumFrom(rain, centre, k, sent, acc) == Tally(Ok(acc + value(rd.0)), rd.1)
    decreases 64 - k
  {
    if k < 64 {
      var p := GridPoint(centre, Offsets()[k]);
      var first := readings(p, sent).value;
      var rest := ReadingsFrom(readings, centre, k + 1, first.1).value;
      assert PointSumsReadings(rain, readings, value, p, sent);
      assert SumFrom(rain, centre, k, sent, acc) == SumFrom(rain, centre, k + 1, first.1, acc + value(first.0));
      SumFromIsValueOfReadings(rain, readings, value, centre, k + 1, first.1, acc + value(first.0));
      assert ReadingsFrom(readings, centre, k, sent).value == (first.0 + rest.0, rest.1);
      assert value(first.0 + rest.0) == value(first.0) + value(rest.0);
    }
  }

  /** An event's total is the positive-only sum of the readings of all 64
      grid points' series together, in visiting order; it fails exactly when
      one of those series cannot be fetched or parsed. */
  lemma EventTotalIsPositiveSum(c: Codecs, net: Service, centre: Point, hour: int, sent: nat)
    ensures var t := EventTotal(c, net, centre, hour, sent);
      var rd := ReadingsFrom(ReadingsOf(c, net, hour), centre, 0, sent);
      && (t.result.Ok? <==> rd.Some?)
      && (rd.Some? ==> t == Tally(Ok(PositiveSum(rd.value.0)), rd.value.1))
  {
    var rain, readings := RainOf(c, net, hour), ReadingsOf(c, net, hour);
    RainOfSumsReadings(c, net, hour);
    SumFromOkIffReadings(rain, readings, PositiveSum, centre, 0, sent, 0.0);
    var rd := ReadingsFrom(readings, centre, 0, sent);
    if rd.Some? {
      PositiveSumAdditive();
      SumFromIsValueOfReadings(rain, readings, PositiveSum, centre, 0, sent, 0.0);
      var total := PositiveSum(rd.value.0);
      assert SumFrom(rain, centre, 0, sent, 0.0).result.value == 0.0 + total == total;
    }
  }


  /** The nested grid loops for one event: for each latitude step and then
      each longitude step in -4..3, fetch and parse the grid point's series
      and add its positive readings to `tot_rf`; the first error aborts. */
  method AggregateEvent(c: Codecs, net: Service, centre: Point, hour: int, sent0: nat) returns (total: Result<real, Error>, sent: nat)
    ensures Tally(total, sent) == EventTotal(c, net, centre, hour, sent0)
    ensures total.Ok? ==> total.value >= 0.0
    ensures sent0 + 1 <= sent <= sent0 + MaxAttempts * 64
  {
    EventTotalBounds(c, net, centre, hour, sent0);
    ghost var rain := RainOf(c, net, hour);
    var tot := 0.0;
    sent := sent0;
    for latInc := -4 to 4
      invariant EventTotal(c, net, centre, hour, sent0) == SumFrom(rain, centre, 8 * (latInc + 4), sent, tot)
    {
      var rowTotal;
      rowTotal, sent := AggregateRow(c, net, centre, hour, latInc, sent, tot, rain);
      if rowTotal.Err? {
        return rowTotal, sent;
      }
      tot := rowTotal.value;
    }
    total := Ok(tot);
  }

  /** The inner loop at latitude step `latInc`: the eight longitude steps in
      -4..3, each adding its grid point's rain to the running total `tot0`. */
  method AggregateRow(c: Codecs, net: Service, centre: Point, hour: int, latInc: int, sent0: nat, tot0: real, ghost rain: RainAt)
    returns (tot: Result<real, Error>, sent: nat)
    requires -4 <= latInc < 4
    requires rain == RainOf(c, net, hour)
    ensures tot.Err? ==> SumFrom(rain, centre, 8 * (latInc + 4), sent0, tot0) == Tally(tot, sent)
    ensures tot.Ok? ==>
      SumFrom(rain, centre, 8 * (latInc + 4), sent0, tot0) == SumFrom(rain, centre, 8 * (latInc + 1 + 4), sent, tot.value)
  {
    ghost var k: nat := 8 * (latInc + 4);
    ghost var start := SumFrom(rain, centre, k, sent0, tot0);
    var acc := tot0;
    sent := sent0;
    for lonInc := -4 to 4
      invariant k == 8 * (latInc + 4) + (lonInc + 4)
      invariant start == SumFrom(rain, centre, k, sent, acc)
    {
      var p := GridPoint(centre, (latInc, lonInc));
      var pointRain, pointSent := AggregatePoint(c, net, p, hour, sent);
      if pointRain.Err? {
        SumFromAdvance(rain, centre, latInc, lonInc, k, sent, acc, Tally(pointRain, pointSent), k + 1, acc);
        return pointRain, pointSent;
      }
      ghost var kBefore, sentBefore, accBefore := k, sent, acc;
      sent := pointSent;
      acc := acc + pointRain.value;
      k := k + 1;
      SumFromAdvance(rain, centre, latInc, lonInc, kBefore, sentBefore, accBefore, Tally(pointRain, sent), k, acc);
    }
    tot := Ok(acc);
  }

  /** The loops' step: aggregating from the loops' position `k` is the current
      point's rain `t` followed by aggregating from the next position `next`
      onto the total `acc2`. */
  lemma SumFromAdvance(rain: RainAt, centre: Point, latInc: int, lonInc: int, k: nat, sent: nat, acc: real,
                       t: Tally, next: nat, acc2: real)
    requires -4 <= latInc < 4 && -4 <= lonInc < 4 && k == 8 * (latInc + 4) + (lonInc + 4)
    requires rain(GridPoint(centre, (latInc, lonInc)), sent) == t
    requires next == k + 1 && (t.result.Ok? ==> acc2 == acc + t.result.value)
    ensures next <= 64
    ensures t.result.Err? ==> SumFrom(rain, centre, k, sent, acc) == t
    ensures t.result.Ok? ==> SumFrom(rain, centre, k, sent, acc) == SumFrom(rain, centre, next, t.sent, acc2)
  {
    OffsetAt(latInc, lonInc);
  }
}
