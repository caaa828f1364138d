/** The cadence of the training loop in train.py (lines 203-246): where a run starts, which
    iterations report progress and reset the running loss and time accumulators, which save a
    checkpoint and under what label. Model, loss values and timing are not represented; the
    accumulator is modelled by the number of batches it has summed since its last reset. */
module Training {
  import opened Results
  import opened Seqs
  import Checkpoint

  /** `(i + 1) % interval` raises `ZeroDivisionError` when the interval or the checkpoint
      period is zero. */
  datatype LoopError = ZeroDivision

  /** What the loop does, in order: an iteration on one batch, a progress report with its
      label and the number of batches its averages cover, or a checkpoint save with its label.
      A run's trace ends with the final save. */
  datatype Event = Iter(index: int) | Report(count: int, batches: int) | Save(count: int)

  /** The first iteration index: the stored count of the resumed checkpoint, else 0
      (lines 204-211). */
  function StartIteration(resumed: Option<int>): (start: int)
  {
    match resumed
    case Some(k) => k
    case None => 0
  }

  function Abs(x: int): (r: nat)
  {
    if x < 0 then -x else x
  }

  /** An event due every `every` iterations fires at `step` (`step % every == 0`, with
      a non-zero `every`). Python's `%` takes the sign of the divisor and Dafny's is never
      negative, but both are zero exactly when `every` divides `step`. */
  predicate Fires(step: int, every: int)
  {
    every != 0 && step % every == 0
  }

  /** `range(start, stop)`. */
  predicate IsRange(s: seq<int>, start: int, stop: int)
  {
    && |s| == (if start < stop then stop - start else 0)
    && forall j :: 0 <= j < |s| ==> s[j] == start + j
  }

  /** The indices of the iterations in a trace, in order. */
  function Iterations(t: seq<Event>): (r: seq<int>)
  {
    if |t| == 0 then []
    else Iterations(t[..|t| - 1]) + (if t[|t| - 1].Iter? then [t[|t| - 1].index] else [])
  }

  lemma {:induction false} IterationsAppend(a: seq<Event>, b: seq<Event>)
    ensures Iterations(a + b) == Iterations(a) + Iterations(b)
    decreases |b|
  {
    if |b| > 0 {
      assert (a + b)[..|a + b| - 1] == a + b[..|b| - 1];
      IterationsAppend(a, b[..|b| - 1]);
    } else {
      assert a + b == a;
    }
  }

  /** The iterations up to a point inside the second part of a trace. */
  lemma IterationsAppendPrefix(a: seq<Event>, b: seq<Event>, q: nat)
    requires q <= |b|
    ensures Iterations((a + b)[..|a| + q]) == Iterations(a) + Iterations(b[..q])
  {
    assert (a + b)[..|a| + q] == a + b[..q];
    IterationsAppend(a, b[..q]);
  }

  /** Reports and saves are not iterations. */
  lemma {:induction false} IterationsNone(t: seq<Event>)
    requires forall j :: 0 <= j < |t| ==> !t[j].Iter?
    ensures Iterations(t) == []
    decreases |t|
  {
    if |t| > 0 {
      IterationsNone(t[..|t| - 1]);
    }
  }

  /** Each report and save among the events `es` of iterations `start` to `stop - 1` has a
      label in `(start, stop]` and fires on the interval or period, and a report averages over
      the batches since the previous report or since the start. */
  ghost predicate Labelled(start: int, stop: int, interval: int, period: int, es: seq<Event>)
  {
    forall p :: 0 <= p < |es| && !es[p].Iter? ==>
      && start < es[p].count <= stop
      && (es[p].Report? ==> Fires(es[p].count, interval) && es[p].batches == Min(Abs(interval), es[p].count - start))
      && (es[p].Save? ==> Fires(es[p].count, period))
  }

  /** Each report and save labelled `l` among the events `es` comes after exactly the
      iterations `start` to `l - 1`: its label is the iteration count reached. */
  ghost predicate Reached(start: int, es: seq<Event>)
  {
    forall p {:trigger Iterations(es[..p])} :: 0 <= p < |es| && !es[p].Iter? ==>
      IsRange(Iterations(es[..p]), start, es[p].count)
  }

  /** Every report and save due in `(start, stop]` is among the events `es`. */
  ghost predicate Complete(start: int, stop: int, interval: int, period: int, es: seq<Event>)
  {
    && (forall l :: start < l <= stop && Fires(l, interval) ==> Report(l, Min(Abs(interval), l - start)) in es)
    && (forall l :: start < l <= stop && Fires(l, period) ==> Save(l) in es)
  }

  /** Reports and saves come in label order, and at the same label the report comes before
      the save: an earlier one has a smaller label, or the same label as a later save. */
  ghost predicate Ordered(es: seq<Event>)
  {
    forall p, q :: 0 <= p < q < |es| && !es[p].Iter? && !es[q].Iter? ==>
      es[p].count < es[q].count || (es[p].count == es[q].count && es[p].Report? && es[q].Save?)
  }

  /** What a completed run of the loop from `start` to `nIters` does: it runs iterations
      `start` to `nIters - 1` in order, reports and saves exactly when due and right after the
      iteration that completes the count they are labelled with, and ends with the final save
      of `nIters`. */
  ghost predicate IsTrace(start: int, nIters: int, interval: int, period: int, t: seq<Event>)
  {
    && |t| >= 1 && t[|t| - 1] == Save(nIters)
    && IsRange(Iterations(t), start, nIters)
    && IsRange(Iterations(t[..|t| - 1]), start, nIters)
    && Labelled(start, nIters, interval, period, t[..|t| - 1])
    && Reached(start, t[..|t| - 1])
    && Complete(start, nIters, interval, period, t[..|t| - 1])
    && Ordered(t[..|t| - 1])
  }

  /** The events of iteration `i` of a loop started at `start`: the iteration, then a report
      when the interval divides `i + 1`, then a save when the period divides `i + 1`. */
  function IterationEvents(start: int, i: int, interval: int, period: int): (es: seq<Event>)
    ensures 1 <= |es| <= 3 && es[0] == Iter(i)
    ensures forall q :: 1 <= q < |es| ==> !es[q].Iter? && es[q].count == i + 1
    ensures forall q :: 1 <= q < |es| && es[q].Report? ==>
      Fires(i + 1, interval) && es[q].batches == Min(Abs(interval), i + 1 - start)
    ensures forall q :: 1 <= q < |es| && es[q].Save? ==> Fires(i + 1, period)
    ensures forall q, q' :: 1 <= q < q' < |es| ==> es[q].Report? && es[q'].Save?
  {
    [Iter(i)]
    + (if Fires(i + 1, interval) then [Report(i + 1, Min(Abs(interval), i + 1 - start))] else [])
    + (if Fires(i + 1, period) then [Save(i + 1)] else [])
  }

  /** The events of iterations `start` to `stop - 1`, the reference the loop is checked
      against. */
  function LoopEvents(start: int, stop: int, interval: int, period: int): (es: seq<Event>)
    decreases stop - start
  {
    if stop <= start then []
    else LoopEvents(start, stop - 1, interval, period) + IterationEvents(start, stop - 1, interval, period)
  }

  /** `i % m` and `(i + 1) % m` for Dafny's Euclidean `%`. */
  lemma ModSucc(i: int, m: int)
    requires m != 0
    ensures (i + 1) % m == 0 ==> i % m == Abs(m) - 1
    ensures (i + 1) % m != 0 ==> (i + 1) % m == i % m + 1
  {
    var q, r := i / m, i % m;
    assert i == m * q + r && 0 <= r < Abs(m);
    if r + 1 < Abs(m) {
      ModUnique(i + 1, m, q, r + 1);
    } else {
      var q' := if m > 0 then q + 1 else q - 1;
      assert i + 1 == m * q' by {
        if m > 0 { assert m * q' == m * q + m; } else { assert m * q' == m * q - m; }
      }
      ModUnique(i + 1, m, q', 0);
    }
  }

  /** A non-zero multiple of `m` is at least `|m|` away from zero. */
  lemma MultipleAtLeast(m: int, d: int)
    requires m != 0 && d != 0
    ensures Abs(m * d) >= Abs(m)
  {
    if m > 0 && d > 0 {
      assert m * d == m + m * (d - 1);
    } else if m > 0 {
      assert m * d == -(m + m * (-d - 1));
    } else if d > 0 {
      assert m * d == -((-m) + (-m) * (d - 1));
    } else {
      assert m * d == (-m) + (-m) * (-d - 1);
    }
  }

  /** Euclidean remainders are unique. */
  lemma ModUnique(x: int, m: int, q: int, r: int)
    requires m != 0 && x == m * q + r && 0 <= r < Abs(m)
    ensures x % m == r
  {
    var q0, r0 := x / m, x % m;
    assert x == m * q0 + r0 && 0 <= r0 < Abs(m);
    assert m * (q - q0) == r0 - r;
    if q != q0 {
      MultipleAtLeast(m, q - q0);
    }
  }

  /** Within the events of one iteration, whatever follows the iteration itself comes after
      exactly that iteration. */
  lemma IterationEventsPrefix(start: int, i: int, interval: int, period: int, q: nat)
    requires 1 <= q <= |IterationEvents(start, i, interval, period)|
    ensures Iterations(IterationEvents(start, i, interval, period)[..q]) == [i]
  {
    var es := IterationEvents(start, i, interval, period)[..q];
    assert es == [Iter(i)] + es[1..];
    IterationsAppend([Iter(i)], es[1..]);
    IterationsNone(es[1..]);
    assert [Iter(i)][..0] == [];
  }

  /** The reference events run iterations `start` to `stop - 1` in order. */
  lemma {:induction false} LoopIterations(start: int, stop: int, interval: int, period: int)
    ensures IsRange(Iterations(LoopEvents(start, stop, interval, period)), start, stop)
    decreases stop - start
  {
    if stop > start {
      var es := LoopEvents(start, stop - 1, interval, period);
      var block := IterationEvents(start, stop - 1, interval, period);
      LoopIterations(start, stop - 1, interval, period);
      IterationsAppend(es, block);
      IterationEventsPrefix(start, stop - 1, interval, period, |block|);
      assert block[..|block|] == block;
    }
  }

  /** A report or save in the events of iteration `i`, appended to events that ran
      iterations `start` to `i - 1`, comes after exactly the iterations `start` to `i`. */
  lemma BlockReached(start: int, i: int, interval: int, period: int, prev: seq<Event>, q: nat)
    requires IsRange(Iterations(prev), start, i) && start <= i
    requires 1 <= q < |IterationEvents(start, i, interval, period)|
    ensures IsRange(Iterations((prev + IterationEvents(start, i, interval, period))[..|prev| + q]), start, i + 1)
  {
    var block := IterationEvents(start, i, interval, period);
    IterationsAppendPrefix(prev, block, q);
    IterationEventsPrefix(start, i, interval, period, q);
    RangeExtends(Iterations(prev), start, i);
  }

  /** `range(start, i)` followed by `i` is `range(start, i + 1)`. */
  lemma RangeExtends(s: seq<int>, start: int, i: int)
    requires start <= i && IsRange(s, start, i)
    ensures IsRange(s + [i], start, i + 1)
  {
  }

  /** Appending the events of iteration `i` keeps every report and save labelled. */
  lemma LabelledAppend(start: int, i: int, interval: int, period: int, prev: seq<Event>)
    requires start <= i && Labelled(start, i, interval, period, prev)
    ensures Labelled(start, i + 1, interval, period, prev + IterationEvents(start, i, interval, period))
  {
    var block := IterationEvents(start, i, interval, period);
    var es := prev + block;
    forall p | 0 <= p < |es| && !es[p].Iter?
      ensures start < es[p].count <= i + 1
      ensures es[p].Report? ==> Fires(es[p].count, interval) && es[p].batches == Min(Abs(interval), es[p].count - start)
      ensures es[p].Save? ==> Fires(es[p].count, period)
    {
      if p < |prev| {
        assert es[p] == prev[p];
      } else {
        assert es[p] == block[p - |prev|];
      }
    }
  }

  /** Appending the events of iteration `i` to events that ran iterations `start` to `i - 1`
      keeps every report and save right after the iteration that completes its count. */
  lemma ReachedAppend(start: int, i: int, interval: int, period: int, prev: seq<Event>)
    requires start <= i && IsRange(Iterations(prev), start, i)
    requires Reached(start, prev)
    ensures Reached(start, prev + IterationEvents(start, i, interval, period))
  {
    var block := IterationEvents(start, i, interval, period);
    var es := prev + block;
    forall p | 0 <= p < |es| && !es[p].Iter?
      ensures IsRange(Iterations(es[..p]), start, es[p].count)
    {
      if p < |prev| {
        assert es[p] == prev[p];
        assert es[..p] == prev[..p];
        assert IsRange(Iterations(prev[..p]), start, prev[p].count);
      } else {
        assert es[p] == block[p - |prev|];
        BlockReached(start, i, interval, period, prev, p - |prev|);
      }
    }
  }

  /** Every report and save of the reference events is labelled with the iteration count
      reached, fires on its own interval or period, and a report averages over the batches
      since the last report or since the start. */
  lemma {:induction false} LoopPositions(start: int, stop: int, interval: int, period: int)
    ensures Labelled(start, stop, interval, period, LoopEvents(start, stop, interval, period))
    ensures Reached(start, LoopEvents(start, stop, interval, period))
    decreases stop - start
  {
    if stop > start {
      var prev := LoopEvents(start, stop - 1, interval, period);
      LoopPositions(start, stop - 1, interval, period);
      LoopIterations(start, stop - 1, interval, period);
      LabelledAppend(start, stop - 1, interval, period, prev);
      ReachedAppend(start, stop - 1, interval, period, prev);
    }
  }

  /** The reference events report and save at every label due in `(start, stop]`. */
  lemma {:induction false} LoopComplete(start: int, stop: int, interval: int, period: int)
    ensures Complete(start, stop, interval, period, LoopEvents(start, stop, interval, period))
    decreases stop - start
  {
    if stop > start {
      LoopComplete(start, stop - 1, interval, period);
    }
  }

  /** The reports and saves of the reference events come in label order, the report first
      at a label that has both. */
  lemma {:induction false} LoopOrdered(start: int, stop: int, interval: int, period: int)
    ensures Ordered(LoopEvents(start, stop, interval, period))
    decreases stop - start
  {
    if stop > start {
      var prev := LoopEvents(start, stop - 1, interval, period);
      var es := prev + IterationEvents(start, stop - 1, interval, period);
      LoopOrdered(start, stop - 1, interval, period);
      LoopPositions(start, stop - 1, interval, period);
      forall p, q | 0 <= p < q < |es| && !es[p].Iter? && !es[q].Iter?
        ensures es[p].count < es[q].count || (es[p].count == es[q].count && es[p].Report? && es[q].Save?)
      {
        var last := IterationEvents(start, stop - 1, interval, period);
        if q < |prev| {
          assert es[p] == prev[p] && es[q] == prev[q];
        } else if p < |prev| {
          assert es[p] == prev[p];
        } else {
          assert es[p] == last[p - |prev|] && es[q] == last[q - |prev|];
        }
      }
    }
  }

  /** The reference events followed by the final save form a trace of a completed run. */
  lemma TraceOfLoop(start: int, nIters: int, interval: int, period: int)
    ensures IsTrace(start, nIters, interval, period, LoopEvents(start, nIters, interval, period) + [Save(nIters)])
  {
    var es := LoopEvents(start, nIters, interval, period);
    var t := es + [Save(nIters)];
    assert t[..|t| - 1] == es;
    LoopIterations(start, nIters, interval, period);
    LoopPositions(start, nIters, interval, period);
    LoopComplete(start, nIters, interval, period);
    LoopOrdered(start, nIters, interval, period);
    IterationsAppend(es, [Save(nIters)]);
    IterationsNone([Save(nIters)]);
  }

  /** The main loop (lines 213-246). Each iteration pulls and trains on one batch and adds it
      to the accumulators; when `(i + 1) % interval == 0` it reports and resets them, and when
      `(i + 1) % checkpoint == 0` it saves a checkpoint labelled `i + 1`. After the loop a
      final checkpoint labelled `n_iters` is always saved. */
  method RunLoop(start: int, nIters: int, interval: int, period: int) returns (r: Result<seq<Event>, LoopError>)
    ensures r.Failure? <==> start < nIters && (interval == 0 || period == 0)
    ensures r.Success? ==> IsTrace(start, nIters, interval, period, r.value)
  {
    var trace: seq<Event> := [];
    var acc := 0;
    var i := start;
    while i < nIters
      invariant start <= i && (start < nIters ==> i <= nIters) && (nIters <= start ==> i == start)
      invariant start < i ==> interval != 0 && period != 0
      invariant trace == LoopEvents(start, i, interval, period)
      invariant interval != 0 ==> acc == Min(i % interval, i - start)
    {
      var events := [Iter(i)];
      acc := acc + 1;
      if interval == 0 {
        return Failure(ZeroDivision);
      }
      ModSucc(i, interval);
      if (i + 1) % interval == 0 {
        events := events + [Report(i + 1, acc)];
        acc := 0;
      }
      if period == 0 {
        return Failure(ZeroDivision);
      }
      if (i + 1) % period == 0 {
        events := events + [Save(i + 1)];
      }
      assert events == IterationEvents(start, i, interval, period);
      trace := trace + events;
      i := i + 1;
    }
    TraceOfLoop(start, nIters, interval, period);
    r := Success(trace + [Save(nIters)]);
  }

  /** Resuming from the checkpoint a run saved as label `k` continues the numbering. The save
      came after exactly the iterations `0` to `k - 1`; the resumed run then has
      `n_iters - k` iterations, all later than those, and together they are exactly the
      iterations of an uninterrupted run, so none is repeated or skipped. The resumed run's
      reports and in-loop saves are the uninterrupted run's after `k`. */
  lemma ResumeContinues(first: seq<Event>, firstIters: int, p: nat, k: int, nIters: int,
                        interval: int, period: int, resumed: seq<Event>, full: seq<Event>)
    requires IsTrace(0, firstIters, interval, period, first)
    requires p < |first| && first[p] == Save(k)
    requires 0 <= k <= nIters
    requires IsTrace(k, nIters, interval, period, resumed)
    requires IsTrace(0, nIters, interval, period, full)
    ensures IsRange(Iterations(first[..p]), 0, k)
    ensures |Iterations(resumed)| == nIters - k
    ensures Iterations(first[..p]) + Iterations(resumed) == Iterations(full)
    ensures forall a, b :: a in Iterations(first[..p]) && b in Iterations(resumed) ==> a < b
    ensures forall l :: Report(l, Min(Abs(interval), l - k)) in resumed <==>
                        Report(l, Min(Abs(interval), l)) in full && l > k
    ensures forall l :: Save(l) in resumed[..|resumed| - 1] <==> Save(l) in full[..|full| - 1] && l > k
  {
    SavedAfter(0, firstIters, interval, period, first, p);
    RangesJoin(Iterations(first[..p]), Iterations(resumed), Iterations(full), k, nIters);
    forall l
      ensures Report(l, Min(Abs(interval), l - k)) in resumed <==> Report(l, Min(Abs(interval), l)) in full && l > k
    {
      ReportedWhenDue(k, nIters, interval, period, resumed, l, Min(Abs(interval), l - k));
      ReportedWhenDue(0, nIters, interval, period, full, l, Min(Abs(interval), l));
    }
    forall l
      ensures Save(l) in resumed[..|resumed| - 1] <==> Save(l) in full[..|full| - 1] && l > k
    {
      SavedBefore(k, nIters, interval, period, resumed, l);
      SavedBefore(0, nIters, interval, period, full, l);
    }
  }

  /** Every save of a completed run, the final one included, comes after exactly the
      iterations from the start up to its label. */
  lemma SavedAfter(start: int, nIters: int, interval: int, period: int, t: seq<Event>, p: nat)
    requires IsTrace(start, nIters, interval, period, t)
    requires p < |t| && t[p].Save?
    ensures IsRange(Iterations(t[..p]), start, t[p].count)
  {
    if p < |t| - 1 {
      assert t[..|t| - 1][p] == t[p];
      assert t[..|t| - 1][..p] == t[..p];
    }
  }

  /** The iterations `0` to `k - 1` followed by `k` to `n - 1` are `0` to `n - 1`. */
  lemma RangesJoin(done: seq<int>, later: seq<int>, all: seq<int>, k: int, n: int)
    requires 0 <= k <= n
    requires IsRange(done, 0, k) && IsRange(later, k, n) && IsRange(all, 0, n)
    ensures |later| == n - k
    ensures done + later == all
    ensures forall a, b :: a in done && b in later ==> a < b
  {
    var joined := done + later;
    forall j | 0 <= j < |joined|
      ensures joined[j] == all[j]
    {
      if j >= |done| {
        assert joined[j] == later[j - |done|];
      }
    }
    forall a, b | a in done && b in later
      ensures a < b
    {
      var ja :| 0 <= ja < |done| && done[ja] == a;
      var jb :| 0 <= jb < |later| && later[jb] == b;
    }
  }

  /** A completed run reports `l` over `n` batches exactly when `l` is due and `n` is the
      number of batches since the previous report or the start. */
  lemma ReportedWhenDue(start: int, nIters: int, interval: int, period: int, t: seq<Event>, l: int, n: int)
    requires IsTrace(start, nIters, interval, period, t)
    ensures Report(l, n) in t <==>
      start < l <= nIters && Fires(l, interval) && n == Min(Abs(interval), l - start)
  {
    var es := t[..|t| - 1];
    if Report(l, n) in t {
      var q :| 0 <= q < |t| && t[q] == Report(l, n);
      assert q < |t| - 1 && es[q] == t[q];
    }
    if start < l <= nIters && Fires(l, interval) && n == Min(Abs(interval), l - start) {
      assert Report(l, n) in es;
      var q :| 0 <= q < |es| && es[q] == Report(l, n);
      assert t[q] == es[q];
    }
  }

  /** A completed run saves `l` before its final save exactly when `l` is due. */
  lemma SavedBefore(start: int, nIters: int, interval: int, period: int, t: seq<Event>, l: int)
    requires IsTrace(start, nIters, interval, period, t)
    ensures Save(l) in t[..|t| - 1] <==> start < l <= nIters && Fires(l, period)
  {
    if Save(l) in t[..|t| - 1] {
      var q :| 0 <= q < |t| - 1 && t[..|t| - 1][q] == Save(l);
      assert t[..|t| - 1][q].Save?;
    }
  }

  /** A run resumed from the file saved under label `l` starts at iteration `l`: the file
      still holds that label whatever was saved after it. */
  lemma ResumeFromSavedFile(store: Checkpoint.Store, dir: string, labels: seq<int>, l: int)
    requires l in labels
    ensures Checkpoint.CheckpointName(dir, l) in Checkpoint.SaveAll(store, dir, labels)
    ensures StartIteration(Some(Checkpoint.SaveAll(store, dir, labels)[Checkpoint.CheckpointName(dir, l)].iterations)) == l
  {
    Checkpoint.SaveAllKeepsEveryLabel(store, dir, labels);
  }
}
