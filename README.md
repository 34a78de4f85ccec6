# Periodic statistics sampler

A model of the sampler of a database benchmark harness (`src/sampler.rs`).
While a workload runs, the driver calls the sampler after every completed
iteration with the iteration number and the current instant. The sampler
decides whether a statistics snapshot is due: either a fixed duration or a
fixed number of iterations has passed since the last checkpoint. It skips a
snapshot when the run is too close to its end, so that no tiny sample is left
at the end. When it emits, it moves the checkpoint forward by exactly one
interval, never to the current instant or iteration. `finish` always sends one
last snapshot.

The model has two modules:

- `Schedule` (`schedule.dfy`) holds the pure scheduling arithmetic. `Interval`
  is the source's `config::Interval` (`Time`, `Count`, `Unbounded`). `FarFromEnd`
  is the end-of-run test. `Step` is one call of `cycle_completed` on a
  checkpoint value; its helper `FarFromEndAt` feeds `FarFromEnd` the elapsed
  duration and iteration count since the checkpoint (src/sampler.rs:42-51),
  and `Initial` is the checkpoint a new sampler starts from
  (src/sampler.rs:33-35). `Run` is a whole sequence of driver calls. The lemmas
  prove the cadence, the suppression near the end, and the checkpoint
  accounting over any run.
- `Samplers` (`sampler.dfy`) holds the `Sampler` class with the source's
  fields. `CycleCompleted` updates `lastSnapshotTime` and `lastSnapshotCycle`
  in place and pushes onto `output`. Its contract ties the new state to
  `Schedule.Step`. `Valid()` is the invariant that the checkpoint equals the
  start plus one interval per periodic snapshot sent.

Modelling choices:

- Instants and durations are `nat` counts of nanoseconds. Halving a
  `Duration` in the source rounds down to whole nanoseconds, which is `/ 2`
  on these counts.
- `now - last_snapshot_time` (src/sampler.rs:42) subtracts two `Instant`s.
  In Rust this saturates at zero when `now` is earlier. `ElapsedTime` models
  that, so it needs no precondition.
- `iteration - last_snapshot_cycle` (line 43) and `count - elapsed / 2`
  (line 49) are `u64` subtractions. They panic when they underflow. These
  are the preconditions `CallDefined` of `Step` and `CycleCompleted`.
  `Run` requires `Driven`: iterations never decrease and stay within reach of
  an iteration-count bound. That is enough for every call to be defined.
- `start_time + d - elapsed / 2` (line 48) is computed in `int`. A negative
  boundary makes the run "not far from the end".
- `send_stats` appends `Snapshot(clock)` to the `output` field. `clock` is the
  instant `Instant::now()` would return inside `send_stats`, and it is passed
  in as a parameter. The contents of the workload statistics are not modelled.
- `finish` consumes the sampler in the source. Here it sets `finished`, and
  neither `CycleCompleted` nor `Finish` may be called after it.

For a run without a bound (`Unbounded`), count-based sampling first emits
at iteration n + 1 and then once per n iterations. Over iterations 1 to k*n + 1 it emits `k` snapshots
(`CountCadenceExact`) and over iterations 1 to k*n it emits `k - 1`
(`CountCadenceBeforeDue`), whatever instants the calls are made at.

## Model

| member | source | states |
|---|---|---|
| `Schedule.ElapsedTime` | src/sampler.rs:42 | the elapsed duration since the checkpoint; zero when `now` is before the checkpoint (saturating `Instant` subtraction) |
| `Schedule.FarFromEnd` | src/sampler.rs:45-51 | under a time or count run bound, far from the end iff twice the remaining time (iterations) exceeds the current interval; always true for an unbounded run; with an empty interval it is the plain `now < end` / `iteration < limit` test |
| `Schedule.Step` | src/sampler.rs:41-68 | a call emits at most one snapshot, only when far from the end and sampling is bounded; the checkpoint advances by exactly one interval on emission and not otherwise; it never passes the current iteration, and after a time emission the new checkpoint is before `now` |
| `Schedule.UnboundedSamplingIsSilent` | src/sampler.rs:66 | with unbounded sampling a call emits nothing and leaves the checkpoint unchanged, for every iteration and instant |
| `Schedule.CountCadence` | src/sampler.rs:60-64 | count sampling emits iff `iteration > last_snapshot_cycle + cnt` and far from the end; the cycle checkpoint then grows by exactly `cnt`, otherwise it is unchanged; the time checkpoint never changes |
| `Schedule.TimeCadence` | src/sampler.rs:54-58 | time sampling emits iff `now > last_snapshot_time + d` and far from the end; the time checkpoint then grows by exactly `d` (not set to `now`); the cycle checkpoint never changes |
| `Schedule.NearEndSuppresses` | src/sampler.rs:47-67 | when the run is not far from its end, no sampling mode emits and the checkpoint is unchanged |
| `Schedule.CatchUpCount` | src/sampler.rs:60-64 | under every run bound, when a call is far from the end after a stall of more than two count intervals, it emits, moves the checkpoint by one interval, and the next call at the same iteration and instant emits again |
| `Schedule.CatchUpTime` | src/sampler.rs:54-58 | under every run bound, when a call is far from the end after a stall of more than two time intervals, it emits, moves the checkpoint by one interval, and the next call at the same iteration and instant emits again |
| `Schedule.StepAccounted` | src/sampler.rs:53-67 | one call keeps the checkpoint equal to the start plus one interval per periodic emission, counting its own emission |
| `Schedule.Run` | src/sampler.rs:41-68 | over any driven sequence of calls, emissions are at most the number of calls; the checkpoint equals the starting one plus emissions times the interval (count or time), so it never decreases, and never passes the last iteration; unbounded sampling emits nothing |
| `Schedule.RunAccounted` | src/sampler.rs:27-67 | from a fresh sampler, after any driven sequence of calls, `last_snapshot_cycle` (resp. `last_snapshot_time - start_time`) is the number of emissions times `cnt` (resp. `d`) |
| `Schedule.CountCadenceFromStart` | src/sampler.rs:60-64 | count sampling of an unbounded run over iterations 1..m, called at any instants, emits e snapshots with e*n <= m-1 < (e+1)*n |
| `Schedule.CountCadenceExact` | src/sampler.rs:60-64 | count sampling of an unbounded run over iterations 1..k*n+1, at any instants, emits exactly k snapshots |
| `Schedule.CountCadenceBeforeDue` | src/sampler.rs:60-64 | count sampling of an unbounded run over iterations 1..k*n, at any instants, emits exactly k-1 snapshots |
| `Schedule.EndSuppressionExample` | src/sampler.rs:47-58 | a 100 s run sampled every 10 s with the checkpoint at 80 s: no snapshot at 96 s (too near the end), a snapshot at 91 s that moves the checkpoint to 90 s |
| `Samplers.Sampler.constructor` | src/sampler.rs:21-37 | stores the run bound and sampling unchanged, `start_time = now`, `last_snapshot_time = start_time`, `last_snapshot_cycle = 0`, nothing sent |
| `Samplers.Sampler.CycleCompleted` | src/sampler.rs:41-68 | the new checkpoint and the output are exactly those of `Step`; run bound, sampling and start time unchanged; the accounting invariant is kept |
| `Samplers.Sampler.Finish` | src/sampler.rs:71-73 | appends exactly one snapshot unconditionally, also on a fresh sampler; the checkpoint is unchanged |
| `Samplers.Sampler.SendStats` | src/sampler.rs:76-79 | appends one snapshot to the output |

## Left out

- The asynchronous channel send, its suspension and the panic when the channel is closed (src/sampler.rs:78): a send is an append to `output`.
- `Workload::take_stats` and the contents of `WorkloadStats`: a snapshot records only the instant it was taken at.
- Clock reads with `Instant::now()`: the instants are parameters (`now` for the constructor, `clock` for sends).
- The lifetimes of the borrowed workload and output references.
- Overflow of `Instant + Duration` and of the `u64` sum `last_snapshot_cycle + cnt`: instants and counts are unbounded, since these sums would need over 2^64 iterations or centuries of run time.
- Release builds, where the `u64` subtractions wrap around instead of panicking: the model treats an underflow as a precondition violation.
- src/scripting/connect.rs is not part of this model: it only configures and connects database client sessions.
- Schedule.Run: requires that, under an iteration-count run bound, each iteration is within twice the bound of the starting checkpoint; this is enough for every call to be defined but is stronger than the per-call condition `CallDefined`.
