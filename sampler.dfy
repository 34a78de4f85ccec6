/** The sampler object: the settings and checkpoint fields that a workload
    driver updates in place after each completed iteration, and the output
    channel that snapshots are pushed onto.
 */
module Samplers {
  import opened Schedule

  /** A statistics snapshot taken from the workload; the sampler does not look
      inside it, so it is identified here by the instant it was taken at. */
  datatype Snapshot = Snapshot(takenAt: nat)

  /** Periodically takes a snapshot of the workload statistics and sends it
      to the output. Snapshots are not taken near the end of the run, so that
      the final sample is not excessively small. */
  class Sampler {
    var runDuration: Interval
    var sampling: Interval
    var startTime: nat
    var lastSnapshotTime: nat
    var lastSnapshotCycle: nat
    /** Everything sent to the output channel, oldest first. */
    var output: seq<Snapshot>
    /** Set by `Finish`, which ends the sampler's life. */
    var finished: bool

    function Config(): Settings
      reads this
    {
      Settings(runDuration, sampling, startTime)
    }

    function Latest(): Checkpoint
      reads this
    {
      Checkpoint(lastSnapshotTime, lastSnapshotCycle)
    }

    /** The checkpoint is the start advanced by one interval per periodic
        snapshot, which is every snapshot sent except the final one. */
    ghost predicate Valid()
      reads this
    {
      (finished ==> |output| >= 1) &&
      Accounted(Config(), Latest(), |output| - if finished then 1 else 0)
    }

    /** A sampler started at instant `now`: the checkpoint is the start of the
        run and iteration 0, and nothing has been sent yet. */
    constructor (runDuration: Interval, sampling: Interval, now: nat)
      ensures Valid() && !finished && output == []
      ensures this.runDuration == runDuration && this.sampling == sampling
      ensures startTime == now && lastSnapshotTime == now && lastSnapshotCycle == 0
    {
      this.runDuration := runDuration;
      this.sampling := sampling;
      startTime := now;
      lastSnapshotTime := now;
      lastSnapshotCycle := 0;
      output := [];
      finished := false;
    }

    /** Called when workload iteration `iteration` has completed at instant
        `now`; sends a snapshot, taken at instant `clock`, when one is due.
        Only the checkpoint and the output change, as `Step` says. */
    method CycleCompleted(iteration: nat, now: nat, clock: nat)
      requires Valid() && !finished
      requires CallDefined(Config(), Latest(), iteration)
      modifies this`lastSnapshotTime, this`lastSnapshotCycle, this`output
      ensures Valid() && Config() == old(Config())
      ensures var step := Step(old(Config()), old(Latest()), iteration, now);
        Latest() == step.next &&
        output == old(output) + if step.emitted then [Snapshot(clock)] else []
    {
      ghost var before := Latest();
      var currentIntervalDuration := ElapsedTime(now, lastSnapshotTime);
      var currentIntervalIterCount := iteration - lastSnapshotCycle;
      var farFromTheEnd := FarFromEnd(runDuration, startTime, iteration, now,
                                      currentIntervalDuration, currentIntervalIterCount);
      match sampling {
        case Time(d) =>
          if now > lastSnapshotTime + d && farFromTheEnd {
            SendStats(clock);
            lastSnapshotTime := lastSnapshotTime + d;
          }
        case Count(cnt) =>
          if iteration > lastSnapshotCycle + cnt && farFromTheEnd {
            SendStats(clock);
            lastSnapshotCycle := lastSnapshotCycle + cnt;
          }
        case Unbounded =>
      }
      StepAccounted(Config(), before, |old(output)|, iteration, now);
    }

    /** Ends the run by sending one last snapshot, taken at instant `clock`,
        whatever the bounds and the cadence. */
    method Finish(clock: nat)
      requires Valid() && !finished
      modifies this`output, this`finished
      ensures Valid() && finished
      ensures output == old(output) + [Snapshot(clock)]
      ensures Config() == old(Config()) && Latest() == old(Latest())
    {
      SendStats(clock);
      finished := true;
    }

    /** Takes a snapshot of the workload statistics and sends it to the output.
        Private to the sampler: it is only a step of `CycleCompleted` and
        `Finish`, which move the checkpoint with it and so keep `Valid()`. */
    method SendStats(clock: nat)
      requires !finished
      modifies this`output
      ensures output == old(output) + [Snapshot(clock)]
    {
      output := output + [Snapshot(clock)];
    }
  }
}
