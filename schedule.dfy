/** The scheduling arithmetic of the periodic statistics sampler, as pure
    functions over values: when a call after a completed workload iteration
    emits a snapshot, how the checkpoint moves, and what a whole run of such
    calls amounts to. Instants and durations are counted in nanosecond ticks.
 */
module Schedule {

  /** How long a run lasts, or how often it is sampled: a duration, a number
      of iterations, or no bound at all. */
  datatype Interval = Time(d: nat) | Count(n: nat) | Unbounded

  /** What a sampler is given at construction and never changes afterwards. */
  datatype Settings = Settings(runDuration: Interval, sampling: Interval, startTime: nat)

  /** The instant and the iteration of the last emitted (or the initial) snapshot. */
  datatype Checkpoint = Checkpoint(time: nat, cycle: nat)

  /** What one completed iteration does: the new checkpoint, and whether a
      snapshot was emitted. */
  datatype StepResult = StepResult(next: Checkpoint, emitted: bool)

  /** One call made by the workload driver after a completed iteration. */
  datatype Call = Call(iteration: nat, now: nat)

  /** The checkpoint after a sequence of calls and how many snapshots they emitted. */
  datatype RunResult = RunResult(last: Checkpoint, emissions: nat)

  /** The checkpoint of a freshly constructed sampler. */
  function Initial(cfg: Settings): Checkpoint
  {
    Checkpoint(cfg.startTime, 0)
  }

  /** The duration from `since` to `now`; subtracting a later instant from an
      earlier one saturates at zero instead of failing. */
  function ElapsedTime(now: nat, since: nat): (r: nat)
    ensures now >= since ==> since + r == now
    ensures now < since ==> r == 0
  {
    if now >= since then now - since else 0
  }

  /** The calls for which the unsigned 64-bit subtractions of a cycle do not
      underflow: the iterations since the checkpoint, and, under an
      iteration-count run bound, the bound minus half of them. */
  predicate CallDefined(cfg: Settings, cp: Checkpoint, iteration: nat)
  {
    cp.cycle <= iteration &&
    (cfg.runDuration.Count? ==> (iteration - cp.cycle) / 2 <= cfg.runDuration.n)
  }

  /** Whether the run is far enough from its end for a snapshot: the part of
      the run still ahead must be longer than half of the interval that the
      snapshot would close, so that no disproportionately small sample is
      left at the end. */
  function FarFromEnd(run: Interval, startTime: nat, iteration: nat, now: nat,
                      elapsedTime: nat, elapsedCycles: nat): (far: bool)
    ensures run.Time? ==> (far <==> 2 * (startTime + run.d - now) > elapsedTime)
    ensures run.Count? ==> (far <==> 2 * (run.n - iteration) > elapsedCycles)
    ensures run.Unbounded? ==> far
    ensures run.Time? && elapsedTime == 0 ==> (far <==> now < startTime + run.d)
    ensures run.Count? && elapsedCycles == 0 ==> (far <==> iteration < run.n)
  {
    match run
    case Time(d) => now < startTime + d - elapsedTime / 2
    case Count(count) => iteration < count - elapsedCycles / 2
    case Unbounded => true
  }

  /** The run-bound test of one call, computed from the checkpoint. */
  function FarFromEndAt(cfg: Settings, cp: Checkpoint, iteration: nat, now: nat): bool
    requires cp.cycle <= iteration
  {
    FarFromEnd(cfg.runDuration, cfg.startTime, iteration, now,
               ElapsedTime(now, cp.time), iteration - cp.cycle)
  }

  /** One call after a completed iteration: emit at most one snapshot, and on
      an emission advance the checkpoint by exactly one sampling interval. */
  function Step(cfg: Settings, cp: Checkpoint, iteration: nat, now: nat): (r: StepResult)
    requires CallDefined(cfg, cp, iteration)
    ensures r.emitted ==> !cfg.sampling.Unbounded? && FarFromEndAt(cfg, cp, iteration, now)
    ensures r.next.cycle == cp.cycle + (if r.emitted && cfg.sampling.Count? then cfg.sampling.n else 0)
    ensures r.next.time == cp.time + (if r.emitted && cfg.sampling.Time? then cfg.sampling.d else 0)
    ensures r.next.cycle <= iteration
    ensures r.emitted && cfg.sampling.Time? ==> r.next.time < now
  {
    var far := FarFromEndAt(cfg, cp, iteration, now);
    match cfg.sampling
    case Time(d) =>
      if now > cp.time + d && far then StepResult(cp.(time := cp.time + d), true)
      else StepResult(cp, false)
    case Count(cnt) =>
      if iteration > cp.cycle + cnt && far then StepResult(cp.(cycle := cp.cycle + cnt), true)
      else StepResult(cp, false)
    case Unbounded => StepResult(cp, false)
  }

  /** With no sampling interval, a completed iteration never emits and leaves
      the checkpoint as it was, whatever the iteration and the instant. */
  lemma UnboundedSamplingIsSilent(cfg: Settings, cp: Checkpoint, iteration: nat, now: nat)
    requires cfg.sampling.Unbounded? && CallDefined(cfg, cp, iteration)
    ensures Step(cfg, cp, iteration, now) == StepResult(cp, false)
  {
  }

  /** Iteration-count sampling: a snapshot is emitted exactly when more than
      one interval of iterations has passed since the checkpoint and the run
      is far from its end; the checkpoint iteration then grows by exactly the
      interval, and the checkpoint instant never moves. */
  lemma CountCadence(cfg: Settings, cp: Checkpoint, iteration: nat, now: nat)
    requires cfg.sampling.Count? && CallDefined(cfg, cp, iteration)
    ensures var r := Step(cfg, cp, iteration, now);
      (r.emitted <==> iteration > cp.cycle + cfg.sampling.n && FarFromEndAt(cfg, cp, iteration, now)) &&
      r.next == (if r.emitted then Checkpoint(cp.time, cp.cycle + cfg.sampling.n) else cp)
  {
  }

  /** Time sampling: a snapshot is emitted exactly when more than one interval
      of time has passed since the checkpoint and the run is far from its end;
      the checkpoint instant then grows by exactly the interval (it is not
      moved to `now`), and the checkpoint iteration never moves. */
  lemma TimeCadence(cfg: Settings, cp: Checkpoint, iteration: nat, now: nat)
    requires cfg.sampling.Time? && CallDefined(cfg, cp, iteration)
    ensures var r := Step(cfg, cp, iteration, now);
      (r.emitted <==> now > cp.time + cfg.sampling.d && FarFromEndAt(cfg, cp, iteration, now)) &&
      r.next == (if r.emitted then Checkpoint(cp.time + cfg.sampling.d, cp.cycle) else cp)
  {
  }

  /** A call that is not far from the end of the run emits nothing, under
      every sampling mode. */
  lemma NearEndSuppresses(cfg: Settings, cp: Checkpoint, iteration: nat, now: nat)
    requires CallDefined(cfg, cp, iteration) && !FarFromEndAt(cfg, cp, iteration, now)
    ensures Step(cfg, cp, iteration, now) == StepResult(cp, false)
  {
  }

  /** A driver that stalled for more than two intervals of iterations gets
      one snapshot per call: a call that is far from the end of the run emits
      and moves the checkpoint by one interval, and a second call at the same
      iteration and instant emits again, under every run bound. */
  lemma CatchUpCount(cfg: Settings, cp: Checkpoint, iteration: nat, now: nat)
    requires cfg.sampling.Count? && CallDefined(cfg, cp, iteration)
    requires FarFromEndAt(cfg, cp, iteration, now)
    requires cp.cycle + 2 * cfg.sampling.n < iteration
    ensures var first := Step(cfg, cp, iteration, now);
      first.emitted && first.next.cycle == cp.cycle + cfg.sampling.n &&
      CallDefined(cfg, first.next, iteration) && Step(cfg, first.next, iteration, now).emitted
  {
    HalfMonotone(iteration - cp.cycle - cfg.sampling.n, iteration - cp.cycle);
  }

  /** A driver that stalled for more than two intervals of time gets one
      snapshot per call: a call that is far from the end of the run emits
      and moves the checkpoint by one interval, and a second call at the same
      iteration and instant emits again, under every run bound. */
  lemma CatchUpTime(cfg: Settings, cp: Checkpoint, iteration: nat, now: nat)
    requires cfg.sampling.Time? && CallDefined(cfg, cp, iteration)
    requires FarFromEndAt(cfg, cp, iteration, now)
    requires cp.time + 2 * cfg.sampling.d < now
    ensures var first := Step(cfg, cp, iteration, now);
      first.emitted && first.next.time == cp.time + cfg.sampling.d &&
      CallDefined(cfg, first.next, iteration) && Step(cfg, first.next, iteration, now).emitted
  {
    HalfMonotone(now - cp.time - cfg.sampling.d, now - cp.time);
  }

  /** The checkpoint is exactly the initial one advanced by one sampling
      interval per periodic snapshot emitted so far. */
  predicate Accounted(cfg: Settings, cp: Checkpoint, emissions: nat)
  {
    match cfg.sampling
    case Time(d) => cp == Checkpoint(cfg.startTime + emissions * d, 0)
    case Count(n) => cp == Checkpoint(cfg.startTime, emissions * n)
    case Unbounded => emissions == 0 && cp == Initial(cfg)
  }

  /** One call keeps the checkpoint accounted for, counting its own emission. */
  lemma StepAccounted(cfg: Settings, cp: Checkpoint, emissions: nat, iteration: nat, now: nat)
    requires CallDefined(cfg, cp, iteration) && Accounted(cfg, cp, emissions)
    ensures var r := Step(cfg, cp, iteration, now);
      Accounted(cfg, r.next, emissions + if r.emitted then 1 else 0)
  {
    var r := Step(cfg, cp, iteration, now);
    if r.emitted {
      match cfg.sampling
      case Time(d) => assert (emissions + 1) * d == emissions * d + d;
      case Count(n) => assert (emissions + 1) * n == emissions * n + n;
    }
  }

  /** The calls a driver makes: iterations that never go back and never fall
      below the checkpoint, and, under an iteration-count run bound, that stay
      within reach of the bound so that no subtraction underflows. */
  predicate Driven(cfg: Settings, cp: Checkpoint, calls: seq<Call>)
  {
    (forall i, j :: 0 <= i <= j < |calls| ==> calls[i].iteration <= calls[j].iteration) &&
    (forall i :: 0 <= i < |calls| ==> cp.cycle <= calls[i].iteration) &&
    (cfg.runDuration.Count? ==>
       forall i :: 0 <= i < |calls| ==> (calls[i].iteration - cp.cycle) / 2 <= cfg.runDuration.n)
  }

  /** A sequence of calls, in order, from the checkpoint `cp`. */
  function Run(cfg: Settings, cp: Checkpoint, calls: seq<Call>): (r: RunResult)
    requires Driven(cfg, cp, calls)
    ensures r.emissions <= |calls|
    ensures cp.cycle <= r.last.cycle
    ensures calls != [] ==> r.last.cycle <= calls[|calls| - 1].iteration
    ensures cfg.sampling.Count? ==> r.last == Checkpoint(cp.time, cp.cycle + r.emissions * cfg.sampling.n)
    ensures cfg.sampling.Time? ==> r.last == Checkpoint(cp.time + r.emissions * cfg.sampling.d, cp.cycle)
    ensures cfg.sampling.Unbounded? ==> r == RunResult(cp, 0)
    decreases |calls|
  {
    if calls == [] then RunResult(cp, 0)
    else
      var earlier := calls[..|calls| - 1];
      var call := calls[|calls| - 1];
      DrivenPrefix(cfg, cp, calls);
      var before := Run(cfg, cp, earlier);
      assert CallDefined(cfg, before.last, call.iteration) by {
        assert earlier != [] ==> earlier[|earlier| - 1].iteration <= call.iteration;
        HalfMonotone(call.iteration - before.last.cycle, call.iteration - cp.cycle);
      }
      var step := Step(cfg, before.last, call.iteration, call.now);
      OneMoreInterval(before.emissions, cfg.sampling);
      RunResult(step.next, before.emissions + if step.emitted then 1 else 0)
  }

  /** A prefix of the calls a driver makes is also one. */
  lemma DrivenPrefix(cfg: Settings, cp: Checkpoint, calls: seq<Call>)
    requires calls != [] && Driven(cfg, cp, calls)
    ensures Driven(cfg, cp, calls[..|calls| - 1])
  {
  }

  /** Halving rounds down monotonically. */
  lemma HalfMonotone(a: int, b: int)
    requires a <= b
    ensures a / 2 <= b / 2
  {
  }

  /** One more emission moves the checkpoint by one more interval. */
  lemma OneMoreInterval(e: nat, sampling: Interval)
    ensures sampling.Count? ==> (e + 1) * sampling.n == e * sampling.n + sampling.n
    ensures sampling.Time? ==> (e + 1) * sampling.d == e * sampling.d + sampling.d
  {
  }

  /** Over any run, the checkpoint stays the initial one advanced by one
      interval per emitted snapshot, so it only ever grows, in whole
      intervals. */
  lemma RunAccounted(cfg: Settings, calls: seq<Call>)
    requires Driven(cfg, Initial(cfg), calls)
    ensures Accounted(cfg, Run(cfg, Initial(cfg), calls).last, Run(cfg, Initial(cfg), calls).emissions)
  {
  }

  /** The calls after iterations 1, 2, ..., m, the i-th reported at instant
      `times[i - 1]`. */
  function Iterations(times: seq<nat>): (calls: seq<Call>)
    ensures |calls| == |times|
    ensures forall i :: 0 <= i < |times| ==> calls[i] == Call(i + 1, times[i])
  {
    if times == [] then []
    else Iterations(times[..|times| - 1]) + [Call(|times|, times[|times| - 1])]
  }

  /** Calls after consecutive iterations are what a driver makes, when the
      run is not bounded by an iteration count. */
  lemma IterationsDriven(cfg: Settings, times: seq<nat>)
    requires !cfg.runDuration.Count?
    ensures Driven(cfg, Initial(cfg), Iterations(times))
  {
  }

  /** Iteration-count sampling of an unbounded run, called after iterations
      1 to m at any instants: the snapshots emitted are those at iterations
      n + 1, 2n + 1, ..., that is, e of them where e * n <= m - 1 < (e + 1) * n. */
  lemma {:induction false} CountCadenceFromStart(n: nat, start: nat, times: seq<nat>)
    requires n >= 1
    ensures var cfg := Settings(Unbounded, Count(n), start);
      var m := |times|;
      Driven(cfg, Initial(cfg), Iterations(times)) &&
      var e := Run(cfg, Initial(cfg), Iterations(times)).emissions;
      (m == 0 ==> e == 0) && (m >= 1 ==> e * n <= m - 1 < (e + 1) * n)
  {
    var cfg := Settings(Unbounded, Count(n), start);
    var calls := Iterations(times);
    var m := |times|;
    IterationsDriven(cfg, times);
    if m >= 1 {
      var earlierTimes := times[..m - 1];
      CountCadenceFromStart(n, start, earlierTimes);
      var earlier := Iterations(earlierTimes);
      assert calls[..m - 1] == earlier;
      var before := Run(cfg, Initial(cfg), earlier);
      CountStep(n, start, before.emissions, m, times[m - 1]);
    }
  }

  /** The call after iteration m, when e snapshots were emitted before it and
      e * n <= m - 1 <= (e + 1) * n, emits exactly when m - 1 reaches the
      next multiple of n. */
  lemma CountStep(n: nat, start: nat, e: nat, m: nat, now: nat)
    requires n >= 1 && m >= 1 && e * n <= m - 1 <= (e + 1) * n
    ensures var cfg := Settings(Unbounded, Count(n), start);
      var cp := Checkpoint(start, e * n);
      CallDefined(cfg, cp, m) &&
      var e' := e + if Step(cfg, cp, m, now).emitted then 1 else 0;
      e' * n <= m - 1 < (e' + 1) * n
  {
    assert (e + 1) * n == e * n + n;
    assert (e + 2) * n == e * n + n + n;
  }

  /** The quotient of k * n by n is k: no other e has e * n <= k * n < (e + 1) * n. */
  lemma QuotientUnique(n: nat, k: nat, e: nat, a: int)
    requires n >= 1 && a == k * n && e * n <= a < (e + 1) * n
    ensures e == k
  {
  }

  /** Iterations 1 to k * n + 1, at any instants, emit exactly k snapshots:
      the k-th snapshot is due at the first iteration past k intervals. */
  lemma {:induction false} CountCadenceExact(n: nat, k: nat, start: nat, times: seq<nat>)
    requires n >= 1 && |times| == k * n + 1
    ensures var cfg := Settings(Unbounded, Count(n), start);
      Driven(cfg, Initial(cfg), Iterations(times)) &&
      Run(cfg, Initial(cfg), Iterations(times)).emissions == k
  {
    var cfg := Settings(Unbounded, Count(n), start);
    CountCadenceFromStart(n, start, times);
    var e := Run(cfg, Initial(cfg), Iterations(times)).emissions;
    var m := |times|;
    assert e * n <= m - 1 < (e + 1) * n;
    QuotientUnique(n, k, e, m - 1);
  }

  /** Iterations 1 to k * n (for k >= 1), at any instants, emit exactly
      k - 1 snapshots: the call at iteration k * n is not yet past k
      intervals. */
  lemma {:induction false} CountCadenceBeforeDue(n: nat, k: nat, start: nat, times: seq<nat>)
    requires n >= 1 && k >= 1 && |times| == k * n
    ensures var cfg := Settings(Unbounded, Count(n), start);
      Driven(cfg, Initial(cfg), Iterations(times)) &&
      Run(cfg, Initial(cfg), Iterations(times)).emissions == k - 1
  {
    var cfg := Settings(Unbounded, Count(n), start);
    CountCadenceFromStart(n, start, times);
    var e := Run(cfg, Initial(cfg), Iterations(times)).emissions;
    var m := |times|;
    assert e * n <= m - 1 < (e + 1) * n;
    QuotientBelow(n, k, e, m - 1);
  }

  /** The quotient of k * n - 1 by n is k - 1. */
  lemma QuotientBelow(n: nat, k: nat, e: nat, a: int)
    requires n >= 1 && k >= 1 && a == k * n - 1 && e * n <= a < (e + 1) * n
    ensures e == k - 1
  {
    assert (k - 1) * n + n == k * n;
    QuotientUnique(n, k - 1, e, (k - 1) * n);
  }

  /** A run bounded to 100 s and sampled every 10 s, with the checkpoint at
      80 s: a call at 96 s is past the cadence but too near the end (the
      boundary is 100 s minus half of the 16 s interval), while a call at 91 s
      emits and moves the checkpoint to 90 s. */
  lemma EndSuppressionExample()
    ensures var second := 1_000_000_000;
      var cfg := Settings(Time(100 * second), Time(10 * second), 0);
      var cp := Checkpoint(80 * second, 0);
      !Step(cfg, cp, 0, 96 * second).emitted &&
      Step(cfg, cp, 0, 91 * second) == StepResult(Checkpoint(90 * second, 0), true)
  {
  }
}
