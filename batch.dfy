/** The batch over the landfall table: every row whose precipitation is not
    yet known gets the event's rainfall total, the table is saved as a
    checkpoint after each row, and the whole table is written out at the end.
    The first error aborts the batch; rows finished before it stay in the
    last checkpoint, so a rerun resumes where the failed run stopped. */
module Batch {
  import opened Wrappers
  import opened Grid
  import opened Query
  import opened Retry
  import opened Rainfall

  /** One landfall: where and when it happened, and its precipitation, which
      is missing (`NaN`) or negative until the batch fills it in. */
  datatype Event = Event(centre: Point, hour: int, precip: Option<real>)

  /** A row is processed unless its precipitation is already `>= 0`;
      a missing value compares false and so is processed too. */
  predicate Pending(e: Event)
  {
    e.precip.None? || e.precip.value < 0.0
  }

  /** The number of pending rows at index `i` and after. */
  function PendingFrom(rows: seq<Event>, i: nat): (n: nat)
    requires i <= |rows|
    ensures n <= |rows| - i
    ensures n == 0 <==> forall j :: i <= j < |rows| ==> !Pending(rows[j])
    decreases |rows| - i
  {
    if i == |rows| then 0
    else (if Pending(rows[i]) then 1 else 0) + PendingFrom(rows, i + 1)
  }

  /** An event's total given the request counter before it. */
  type TotalAt = (Point, int, nat) -> Tally

  /** The total of each event as the grid aggregation computes it. */
  function TotalsOf(c: Codecs, net: Service): TotalAt
  {
    (centre: Point, hour: int, sent: nat) => EventTotal(c, net, centre, hour, sent)
  }

  /** The number of grid points of an event, and the most requests its total can cost. */
  const GridSize: nat := 64
  const EventRequests: nat := MaxAttempts * GridSize

  /** Each event's total is never negative, costs one to 320 requests, and at
      least 64 when it succeeds. */
  ghost predicate TotalsBounded(totals: TotalAt)
  {
    forall centre: Point, hour: int, sent: nat ::
      var t := totals(centre, hour, sent);
      sent + 1 <= t.sent <= sent + EventRequests &&
      (t.result.Ok? ==> t.result.value >= 0.0 && t.sent >= sent + GridSize)
  }

  lemma TotalsOfBounded(c: Codecs, net: Service)
    ensures TotalsBounded(TotalsOf(c, net))
  {
    forall centre: Point, hour: int, sent: nat {
      EventTotalBounds(c, net, centre, hour, sent);
    }
  }

  /** What a run leaves behind: the table in memory, whether it finished,
      the request counter, every checkpoint written in order, and the final
      output file when the run finished. */
  datatype BatchRun = BatchRun(rows: seq<Event>, status: Result<(), Error>, sent: nat,
                               checkpoints: seq<seq<Event>>, output: Option<seq<Event>>)

  /** The batch from row `i` on, with `sent` requests made and the checkpoints
      `cps` written so far. */
  function BatchFrom(totals: TotalAt, rows: seq<Event>, i: nat, sent: nat, cps: seq<seq<Event>>): (r: BatchRun)
    requires i <= |rows|
    ensures |r.rows| == |rows|
    decreases |rows| - i
  {
    if i == |rows| then BatchRun(rows, Ok(()), sent, cps, Some(rows))
    else if !Pending(rows[i]) then BatchFrom(totals, rows, i + 1, sent, cps)
    else
      var t := totals(rows[i].centre, rows[i].hour, sent);
      match t.result
      case Err(e) => BatchRun(rows, Err(e), t.sent, cps, None)
      case Ok(v) =>
        var next := rows[i := rows[i].(precip := Some(v))];
        BatchFrom(totals, next, i + 1, t.sent, cps + [next])
  }

  /** The whole batch over the table `rows`, starting with no request made. */
  function Run(c: Codecs, net: Service, rows: seq<Event>): BatchRun
  {
    BatchFrom(TotalsOf(c, net), rows, 0, 0, [])
  }

  /** The row loop: for each row still pending, aggregate the event's rainfall
      over the grid, store it in the row and save the table as a checkpoint;
      after the last row, write the table out. */
  method RunBatch(table: array<Event>, c: Codecs, net: Service)
    returns (status: Result<(), Error>, sent: nat, ghost checkpoints: seq<seq<Event>>, ghost output: Option<seq<Event>>)
    modifies table
    ensures Run(c, net, old(table[..])) == BatchRun(table[..], status, sent, checkpoints, output)
  {
    ghost var totals := TotalsOf(c, net);
    ghost var rows0 := table[..];
    sent := 0;
    checkpoints := [];
    for i := 0 to table.Length
      invariant BatchFrom(totals, rows0, 0, 0, []) == BatchFrom(totals, table[..], i, sent, checkpoints)
    {
      if !Pending(table[i]) {
        continue;
      }
      var total, s := AggregateEvent(c, net, table[i].centre, table[i].hour, sent);
      assert totals(table[i].centre, table[i].hour, sent) == Tally(total, s);
      sent := s;
      if total.Err? {
        return Err(total.error), sent, checkpoints, None;
      }
      table[i] := table[i].(precip := Some(total.value));
      checkpoints := checkpoints + [table[..]];
    }
    status := Ok(());
    output := Some(table[..]);
  }

  /** `PendingFrom` only looks at the rows from `i` on. */
  lemma {:induction false} PendingFromSame(rows: seq<Event>, other: seq<Event>, i: nat)
    requires i <= |rows| == |other|
    requires forall j :: i <= j < |rows| ==> rows[j] == other[j]
    ensures PendingFrom(rows, i) == PendingFrom(other, i)
    decreases |rows| - i
  {
    if i < |rows| {
      PendingFromSame(rows, other, i + 1);
    }
  }

  /** A run changes only the precipitation of rows that were pending at or
      after `i`; it ends with an output file exactly when it finishes, and the
      output is the final table. */
  lemma {:induction false} BatchFromFrame(totals: TotalAt, rows: seq<Event>, i: nat, sent: nat, cps: seq<seq<Event>>)
    requires i <= |rows|
    ensures var r := BatchFrom(totals, rows, i, sent, cps);
      && |r.rows| == |rows|
      && (forall j :: 0 <= j < |rows| && (j < i || !Pending(rows[j])) ==> r.rows[j] == rows[j])
      && (forall j :: 0 <= j < |rows| ==> r.rows[j].centre == rows[j].centre && r.rows[j].hour == rows[j].hour)
      && (r.output.Some? <==> r.status.Ok?)
      && (r.output.Some? ==> r.output.value == r.rows)
    decreases |rows| - i
  {
    if i < |rows| {
      if !Pending(rows[i]) {
        BatchFromFrame(totals, rows, i + 1, sent, cps);
      } else {
        var t := totals(rows[i].centre, rows[i].hour, sent);
        if t.result.Ok? {
          var next := rows[i := rows[i].(precip := Some(t.result.value))];
          BatchFromFrame(totals, next, i + 1, t.sent, cps + [next]);
        }
      }
    }
  }

  /** Checkpoints are only ever appended, and the table in memory is always
      the last checkpoint written, or the input when none was written: what
      the checkpoint file holds is never behind the run. */
  lemma {:induction false} BatchFromCheckpoints(totals: TotalAt, rows: seq<Event>, i: nat, sent: nat, cps: seq<seq<Event>>)
    requires i <= |rows|
    ensures var r := BatchFrom(totals, rows, i, sent, cps);
      && |cps| <= |r.checkpoints| && r.checkpoints[..|cps|] == cps
      && (|r.checkpoints| == |cps| ==> r.rows == rows)
      && (|r.checkpoints| > |cps| ==> r.checkpoints[|r.checkpoints| - 1] == r.rows)
    decreases |rows| - i
  {
    if i < |rows| {
      if !Pending(rows[i]) {
        BatchFromCheckpoints(totals, rows, i + 1, sent, cps);
      } else {
        var t := totals(rows[i].centre, rows[i].hour, sent);
        if t.result.Ok? {
          var next := rows[i := rows[i].(precip := Some(t.result.value))];
          BatchFromCheckpoints(totals, next, i + 1, t.sent, cps + [next]);
          var r := BatchFrom(totals, next, i + 1, t.sent, cps + [next]);
          assert r.checkpoints[..|cps|] == r.checkpoints[..|cps| + 1][..|cps|];
        }
      }
    }
  }

  /** With every event total non-negative: the checkpoints written and the
      rows left pending add up to the rows pending before, a finished run
      leaves no row pending and a failed one leaves at least one. */
  lemma {:induction false} BatchFromSettles(totals: TotalAt, rows: seq<Event>, i: nat, sent: nat, cps: seq<seq<Event>>)
    requires i <= |rows|
    requires TotalsBounded(totals)
    ensures var r := BatchFrom(totals, rows, i, sent, cps);
      && |r.checkpoints| + PendingFrom(r.rows, i) == |cps| + PendingFrom(rows, i)
      && (r.status.Ok? ==> PendingFrom(r.rows, i) == 0)
      && (r.status.Err? ==> PendingFrom(r.rows, i) > 0)
    decreases |rows| - i
  {
    if i < |rows| {
      var r := BatchFrom(totals, rows, i, sent, cps);
      if !Pending(rows[i]) {
        BatchFromSettles(totals, rows, i + 1, sent, cps);
        BatchFromFrame(totals, rows, i + 1, sent, cps);
        assert r.rows[i] == rows[i];
      } else {
        var t := totals(rows[i].centre, rows[i].hour, sent);
        if t.result.Ok? {
          var next := rows[i := rows[i].(precip := Some(t.result.value))];
          BatchFromSettles(totals, next, i + 1, t.sent, cps + [next]);
          BatchFromFrame(totals, next, i + 1, t.sent, cps + [next]);
          PendingFromSame(rows, next, i + 1);
          assert r.rows[i] == next[i];
        }
      }
    }
  }

  /** The row `after` is the row `before` with its precipitation set to the
      event's total, computed when `sent` requests had been made. */
  predicate Filled(totals: TotalAt, before: Event, after: Event, sent: nat)
  {
    var t := totals(before.centre, before.hour, sent);
    t.result.Ok? && after == before.(precip := Some(t.result.value))
  }

  /** The checkpoint `cp` is the table `prev` with its pending row `j`, and
      only that row, filled with its event's total. */
  predicate SettlesRow(totals: TotalAt, prev: seq<Event>, cp: seq<Event>, j: nat, sent: nat)
  {
    && j < |prev| == |cp|
    && Pending(prev[j])
    && Filled(totals, prev[j], cp[j], sent)
    && cp == prev[j := cp[j]]
  }

  /** The checkpoint `cp` is the table `prev` with exactly one pending row filled with its event's total. */
  ghost predicate SettlesOne(totals: TotalAt, prev: seq<Event>, cp: seq<Event>)
  {
    exists j, s :: SettlesRow(totals, prev, cp, j, s)
  }

  /** Every row at or after `i` that a run changes was pending, and now holds
      its event's total. */
  lemma {:induction false} BatchFromWritesTotals(totals: TotalAt, rows: seq<Event>, i: nat, sent: nat, cps: seq<seq<Event>>)
    requires i <= |rows|
    ensures var r := BatchFrom(totals, rows, i, sent, cps);
      forall j :: i <= j < |rows| ==>
        r.rows[j] == rows[j] || (Pending(rows[j]) && exists s :: Filled(totals, rows[j], r.rows[j], s))
    decreases |rows| - i
  {
    if i < |rows| {
      if !Pending(rows[i]) {
        BatchFromWritesTotals(totals, rows, i + 1, sent, cps);
        BatchFromFrame(totals, rows, i + 1, sent, cps);
      } else {
        var t := totals(rows[i].centre, rows[i].hour, sent);
        if t.result.Ok? {
          var next := rows[i := rows[i].(precip := Some(t.result.value))];
          BatchFromWritesTotals(totals, next, i + 1, t.sent, cps + [next]);
          BatchFromFrame(totals, next, i + 1, t.sent, cps + [next]);
          var r := BatchFrom(totals, next, i + 1, t.sent, cps + [next]);
          assert Filled(totals, rows[i], r.rows[i], sent);
        }
      }
    }
  }

  /** Each checkpoint a run writes is the table before it (the previous
      checkpoint, or the table the run started from) with exactly one pending
      row filled with its event's total. */
  lemma {:induction false} BatchFromCheckpointSteps(totals: TotalAt, rows: seq<Event>, i: nat, sent: nat, cps: seq<seq<Event>>)
    requires i <= |rows|
    ensures var r := BatchFrom(totals, rows, i, sent, cps);
      |r.checkpoints| > |cps| ==> SettlesOne(totals, rows, r.checkpoints[|cps|])
    ensures var r := BatchFrom(totals, rows, i, sent, cps);
      forall m :: |cps| < m < |r.checkpoints| ==> SettlesOne(totals, r.checkpoints[m - 1], r.checkpoints[m])
    decreases |rows| - i
  {
    if i < |rows| {
      if !Pending(rows[i]) {
        BatchFromCheckpointSteps(totals, rows, i + 1, sent, cps);
      } else {
        var t := totals(rows[i].centre, rows[i].hour, sent);
        if t.result.Ok? {
          var next := rows[i := rows[i].(precip := Some(t.result.value))];
          BatchFromCheckpointSteps(totals, next, i + 1, t.sent, cps + [next]);
          BatchFromCheckpoints(totals, next, i + 1, t.sent, cps + [next]);
          var r := BatchFrom(totals, next, i + 1, t.sent, cps + [next]);
          assert r.checkpoints[|cps|] == r.checkpoints[..|cps| + 1][|cps|] == next;
          assert SettlesRow(totals, rows, next, i, sent);
        }
      }
    }
  }

  /** The failed run `r` stopped at row `f`, at or after `i`: the rows from `i`
      up to `f` are settled, row `f` was pending and it and every later row are
      as in `rows`, and the run ended with the outcome of row `f`'s event total
      computed after `s` requests. */
  ghost predicate StopsAt(totals: TotalAt, rows: seq<Event>, i: nat, r: BatchRun, f: nat, s: nat)
  {
    && r.status.Err?
    && i <= f < |rows| == |r.rows|
    && Pending(rows[f])
    && (forall j :: i <= j < f ==> !Pending(r.rows[j]))
    && r.rows[f..] == rows[f..]
    && totals(rows[f].centre, rows[f].hour, s) == Tally(Err(r.status.error), r.sent)
  }

  /** Stopping at `f` from row `i + 1` on is stopping at `f` from row `i` on,
      when row `i` ends settled and the rows after it are as before. */
  lemma StopsAtBefore(totals: TotalAt, rows: seq<Event>, next: seq<Event>, i: nat, r: BatchRun, f: nat, s: nat)
    requires StopsAt(totals, next, i + 1, r, f, s)
    requires |rows| == |next| && i < |rows| && !Pending(r.rows[i])
    requires forall j :: i < j < |rows| ==> next[j] == rows[j]
    ensures StopsAt(totals, rows, i, r, f, s)
  {
    assert next[f..] == rows[f..];
  }

  /** With every event total non-negative, a failed run stops at the first
      row whose event total fails: the rows before it are all settled, it and
      every later row are untouched, and the run ends with that event's error
      and request counter, so no later row is fetched. */
  lemma {:induction false} BatchFromFailsAt(totals: TotalAt, rows: seq<Event>, i: nat, sent: nat, cps: seq<seq<Event>>)
    requires i <= |rows|
    requires TotalsBounded(totals)
    ensures var r := BatchFrom(totals, rows, i, sent, cps);
      r.status.Err? ==> exists f, s :: StopsAt(totals, rows, i, r, f, s)
    decreases |rows| - i
  {
    if i < |rows| {
      var r := BatchFrom(totals, rows, i, sent, cps);
      if !Pending(rows[i]) {
        BatchFromFailsAt(totals, rows, i + 1, sent, cps);
        BatchFromFrame(totals, rows, i + 1, sent, cps);
        if r.status.Err? {
          var f: nat, s: nat :| StopsAt(totals, rows, i + 1, r, f, s);
          StopsAtBefore(totals, rows, rows, i, r, f, s);
        }
      } else {
        var t := totals(rows[i].centre, rows[i].hour, sent);
        if t.result.Ok? {
          var next := rows[i := rows[i].(precip := Some(t.result.value))];
          BatchFromFailsAt(totals, next, i + 1, t.sent, cps + [next]);
          BatchFromFrame(totals, next, i + 1, t.sent, cps + [next]);
          if r.status.Err? {
            var f: nat, s: nat :| StopsAt(totals, next, i + 1, r, f, s);
            StopsAtBefore(totals, rows, next, i, r, f, s);
          }
        } else {
          assert StopsAt(totals, rows, i, r, i, sent);
        }
      }
    }
  }

  /** With every event total costing 64 to 320 requests, a run costs at most
      320 requests per pending row, and at least 64 per pending row when it
      finishes. */
  lemma {:induction false} BatchFromRequests(totals: TotalAt, rows: seq<Event>, i: nat, sent: nat, cps: seq<seq<Event>>)
    requires i <= |rows|
    requires TotalsBounded(totals)
    ensures var r := BatchFrom(totals, rows, i, sent, cps);
      && sent <= r.sent <= sent + EventRequests * PendingFrom(rows, i)
      && (r.status.Ok? ==> r.sent >= sent + GridSize * PendingFrom(rows, i))
    decreases |rows| - i
  {
    if i < |rows| {
      if !Pending(rows[i]) {
        BatchFromRequests(totals, rows, i + 1, sent, cps);
      } else {
        var t := totals(rows[i].centre, rows[i].hour, sent);
        if t.result.Ok? {
          var next := rows[i := rows[i].(precip := Some(t.result.value))];
          BatchFromRequests(totals, next, i + 1, t.sent, cps + [next]);
          PendingFromSame(rows, next, i + 1);
        }
      }
    }
  }

  /** A table with no pending row from `i` on is left as it is: no request,
      no checkpoint, and the output is the table itself. */
  lemma {:induction false} BatchFromIdle(totals: TotalAt, rows: seq<Event>, i: nat, sent: nat, cps: seq<seq<Event>>)
    requires i <= |rows|
    requires PendingFrom(rows, i) == 0
    ensures BatchFrom(totals, rows, i, sent, cps) == BatchRun(rows, Ok(()), sent, cps, Some(rows))
    decreases |rows| - i
  {
    if i < |rows| {
      BatchFromIdle(totals, rows, i + 1, sent, cps);
    }
  }

  /** The table the checkpoint file holds after a run: the last checkpoint
      written, or the input table itself, which is read from that same file,
      when none was written. */
  function Saved(input: seq<Event>, checkpoints: seq<seq<Event>>): seq<Event>
  {
    if checkpoints == [] then input else checkpoints[|checkpoints| - 1]
  }

  /** A run changes only the precipitation of pending rows; it ends with an
      output file exactly when it finishes, the output holds the final table,
      and the checkpoint file holds that same table whether or not it finished. */
  lemma RunKeepsRows(c: Codecs, net: Service, rows: seq<Event>)
    ensures var r := Run(c, net, rows);
      && |r.rows| == |rows|
      && (forall j :: 0 <= j < |rows| && !Pending(rows[j]) ==> r.rows[j] == rows[j])
      && (forall j :: 0 <= j < |rows| ==> r.rows[j].centre == rows[j].centre && r.rows[j].hour == rows[j].hour)
      && (r.output.Some? <==> r.status.Ok?)
      && (r.output.Some? ==> r.output.value == r.rows)
      && Saved(rows, r.checkpoints) == r.rows
  {
    BatchFromFrame(TotalsOf(c, net), rows, 0, 0, []);
    BatchFromCheckpoints(TotalsOf(c, net), rows, 0, 0, []);
  }

  /** A finished run leaves every row with a non-negative precipitation; a
      failed one leaves some row pending; and the run wrote one checkpoint per
      row it settled. */
  lemma RunSettles(c: Codecs, net: Service, rows: seq<Event>)
    ensures var r := Run(c, net, rows);
      && (r.status.Ok? ==> forall j :: 0 <= j < |r.rows| ==> r.rows[j].precip.Some? && r.rows[j].precip.value >= 0.0)
      && (r.status.Err? ==> exists j :: 0 <= j < |r.rows| && Pending(r.rows[j]))
      && |r.checkpoints| + PendingFrom(r.rows, 0) == PendingFrom(rows, 0)
  {
    TotalsOfBounded(c, net);
    BatchFromSettles(TotalsOf(c, net), rows, 0, 0, []);
  }

  /** Every row a run changes was pending and now holds its event's rainfall
      total over the grid; a finished run changes every pending row so. */
  lemma RunWritesTotals(c: Codecs, net: Service, rows: seq<Event>)
    ensures var r := Run(c, net, rows);
      forall j :: 0 <= j < |rows| ==>
        r.rows[j] == rows[j] || (Pending(rows[j]) && exists s :: Filled(TotalsOf(c, net), rows[j], r.rows[j], s))
    ensures var r := Run(c, net, rows);
      r.status.Ok? ==>
        forall j :: 0 <= j < |rows| && Pending(rows[j]) ==>
          exists s :: EventTotal(c, net, rows[j].centre, rows[j].hour, s).result.Ok? &&
            r.rows[j] == rows[j].(precip := Some(EventTotal(c, net, rows[j].centre, rows[j].hour, s).result.value))
  {
    var r := Run(c, net, rows);
    BatchFromWritesTotals(TotalsOf(c, net), rows, 0, 0, []);
    RunKeepsRows(c, net, rows);
    RunSettles(c, net, rows);
  }

  /** Each checkpoint a run writes is the table the checkpoint file held
      before it with exactly one pending row filled with its event's total. */
  lemma RunCheckpointsSettleOne(c: Codecs, net: Service, rows: seq<Event>)
    ensures var r := Run(c, net, rows);
      forall m :: 0 <= m < |r.checkpoints| ==> SettlesOne(TotalsOf(c, net), Saved(rows, r.checkpoints[..m]), r.checkpoints[m])
  {
    var totals := TotalsOf(c, net);
    var r := BatchFrom(totals, rows, 0, 0, []);
    BatchFromCheckpointSteps(totals, rows, 0, 0, []);
    forall m | 0 <= m < |r.checkpoints| ensures SettlesOne(totals, Saved(rows, r.checkpoints[..m]), r.checkpoints[m]) {
      if m > 0 {
        assert Saved(rows, r.checkpoints[..m]) == r.checkpoints[m - 1];
      }
    }
  }

  /** A failed run stops at the first row whose event total fails: every row
      before it is settled, it and every later row are as they were, and the
      run surfaces that event's error, making no request after it. */
  lemma RunFailsAt(c: Codecs, net: Service, rows: seq<Event>)
    ensures var r := Run(c, net, rows);
      r.status.Err? ==>
        exists f, s ::
          && 0 <= f < |rows|
          && Pending(rows[f])
          && (forall j :: 0 <= j < f ==> !Pending(r.rows[j]))
          && r.rows[f..] == rows[f..]
          && EventTotal(c, net, rows[f].centre, rows[f].hour, s) == Tally(Err(r.status.error), r.sent)
  {
    var totals := TotalsOf(c, net);
    TotalsOfBounded(c, net);
    BatchFromFailsAt(totals, rows, 0, 0, []);
    var r := BatchFrom(totals, rows, 0, 0, []);
    if r.status.Err? {
      var f: nat, s: nat :| StopsAt(totals, rows, 0, r, f, s);
      assert EventTotal(c, net, rows[f].centre, rows[f].hour, s) == Tally(Err(r.status.error), r.sent);
    }
  }

  /** A run makes at most 320 requests per pending row, and at least 64 per
      pending row when it finishes. */
  lemma RunRequests(c: Codecs, net: Service, rows: seq<Event>)
    ensures var r := Run(c, net, rows);
      && r.sent <= EventRequests * PendingFrom(rows, 0)
      && (r.status.Ok? ==> r.sent >= GridSize * PendingFrom(rows, 0))
  {
    TotalsOfBounded(c, net);
    BatchFromRequests(TotalsOf(c, net), rows, 0, 0, []);
  }

  /** Running the batch again on the table a finished run saved does nothing:
      no request, no checkpoint, and the same table written out. */
  lemma RerunIsIdle(c: Codecs, net: Service, net2: Service, rows: seq<Event>)
    requires Run(c, net, rows).status.Ok?
    ensures var saved := Saved(rows, Run(c, net, rows).checkpoints);
      Run(c, net2, saved) == BatchRun(saved, Ok(()), 0, [], Some(saved))
  {
    RunKeepsRows(c, net, rows);
    RunSettles(c, net, rows);
    BatchFromIdle(TotalsOf(c, net2), Run(c, net, rows).rows, 0, 0, []);
  }

  /** Resuming from the table a failed run saved keeps every row it settled,
      and has as many fewer rows pending as the failed run wrote checkpoints. */
  lemma ResumeKeepsProgress(c: Codecs, net: Service, net2: Service, rows: seq<Event>)
    ensures var r := Run(c, net, rows);
      var saved := Saved(rows, r.checkpoints);
      var r2 := Run(c, net2, saved);
      && PendingFrom(saved, 0) + |r.checkpoints| == PendingFrom(rows, 0)
      && |saved| == |rows|
      && forall j :: 0 <= j < |saved| && !Pending(saved[j]) ==> r2.rows[j] == saved[j]
  {
    var r := Run(c, net, rows);
    RunKeepsRows(c, net, rows);
    RunSettles(c, net, rows);
    RunKeepsRows(c, net2, r.rows);
  }
}
