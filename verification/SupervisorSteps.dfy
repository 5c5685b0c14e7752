/** What the supervisor does from a given moment on, write by write, as functions of what is to come. */
module SupervisorSteps {
  import opened Options
  import C = ArtifactCatalog
  import opened GenerationCommit
  import opened CommitHistory

  /** What the outside world does next: the child's exit with the files it leaves, the death of the supervisor while
      the child is writing, an Arena's outcome, an operator's stop, or nothing when the supervisor looks for one. */
  datatype Signal =
    | DriverFailed(newFiles: map<Path, C.File>)
    | DriverDone(result: DriverResult, newFiles: map<Path, C.File>)
    | Killed(newFiles: map<Path, C.File>)
    | ArenaPassed
    | ArenaFailed
    | SoftStop
    | Quiet

  datatype Outcome = Finished | Raised | Down

  /** How a lineage is run: its specification, whether interrupted generations may be resumed, whether there is an Arena. */
  datatype Policy = Policy(spec: Spec, resumable: bool, arena: bool)

  /** The disk, what is to come, the operator's durable stop request, and the durable writes until the process dies. */
  datatype Moment = Moment(disk: Disk, signals: seq<Signal>, stop: bool, writes: nat)

  datatype Reached = Reached(outcome: Outcome, at: Moment)

  predicate Idle(signal: Signal) { signal.SoftStop? || signal.Quiet? }

  /** What is at the front before the next child's outcome. */
  function Stops(signals: seq<Signal>): (k: nat)
    ensures k <= |signals| && forall i :: 0 <= i < k ==> Idle(signals[i])
    ensures k < |signals| ==> !Idle(signals[k])
  {
    if signals == [] || !Idle(signals[0]) then 0 else 1 + Stops(signals[1..])
  }

  /** The next child's outcome. */
  function Coming(signals: seq<Signal>): Option<Signal> {
    if Stops(signals) < |signals| then Some(signals[Stops(signals)]) else None
  }

  /** What is to come after it. */
  function Beyond(signals: seq<Signal>): seq<Signal> {
    if Stops(signals) < |signals| then signals[Stops(signals) + 1..] else []
  }

  // ----- one thing at a time -----

  /** Waiting for a child: its outcome is taken, stop requests made meanwhile are recorded. */
  function Heard(s: Moment): (r: Moment)
    ensures |r.signals| <= |s.signals|
  {
    s.(signals := Beyond(s.signals), stop := s.stop || SoftStop in s.signals[..Stops(s.signals)])
  }

  /** Looking for a stop request between two units. */
  function Polled(s: Moment): (r: Moment)
    ensures |r.signals| <= |s.signals|
  {
    if s.signals != [] && Idle(s.signals[0]) then s.(signals := s.signals[1..], stop := s.stop || s.signals[0] == SoftStop) else s
  }

  /** A look in between does not change what is heard in the end. */
  lemma PolledHeard(s: Moment)
    ensures Heard(Polled(s)) == Heard(s) && Coming(Polled(s).signals) == Coming(s.signals)
  {
    if s.signals != [] && Idle(s.signals[0]) {
      assert s.signals[..Stops(s.signals)] == [s.signals[0]] + s.signals[1..][..Stops(s.signals[1..])];
    }
  }

  /** One durable write, if the process lives to make it. */
  function Wrote(s: Moment, d: Disk): Reached {
    if s.writes > 0 then Reached(Finished, s.(disk := d, writes := s.writes - 1)) else Reached(Down, s)
  }

  function Restated(s: Moment, status: RunStatus): Reached {
    Wrote(s, s.disk.(runtime := s.disk.runtime.(status := status)))
  }

  /** The disk after the first k writes of any recovery, refused ones included. */
  function Written(d: Disk, r: Recovered, k: nat): Disk
    requires k <= WriteCount(r)
  {
    match r
    case Nothing => d
    case Refused(written, _) => Cataloging(d, written[..k])
    case Finish(_, _, _) => AfterWrites(d, r, k)
  }

  /** The recovery, or as much of it as there are writes for. */
  ghost function Recovering(p: Policy, s: Moment): Reached {
    var r := Recovery(p.spec, s.disk);
    if s.writes >= WriteCount(r)
    then Reached(if r.Refused? then Raised else Finished, s.(disk := AfterRecovery(s.disk, r), writes := s.writes - WriteCount(r)))
    else Reached(Down, s.(disk := Written(s.disk, r, s.writes), writes := 0))
  }

  /** The Arena of a committed generation: recorded only after it passed. */
  function Judging(p: Policy, s: Moment, g: nat): (r: Reached)
    ensures |r.at.signals| <= |s.signals|
  {
    if !p.arena then Reached(Raised, s)
    else
      var phase := Wrote(s, s.disk);
      if phase.outcome.Down? then phase
      else
        match Coming(s.signals)
        case None => Reached(Down, Heard(phase.at))
        case Some(signal) =>
          var heard := Heard(phase.at);
          if signal == ArenaPassed
          then Wrote(heard, heard.disk.(manifest := heard.disk.manifest.(arenas := heard.disk.manifest.arenas + {g})))
          else Reached(Raised, heard)
  }

  /** The Arena of the last generation, if it is due and missing. */
  function Catching(p: Policy, s: Moment): (r: Reached)
    ensures |r.at.signals| <= |s.signals|
  {
    var g := s.disk.manifest.last;
    if ArenaDue(p.spec, s.disk.runtime.origin, g) && g !in s.disk.manifest.arenas then Judging(p, s, g) else Reached(Finished, s)
  }

  /** The commit tail, or as much of it as there are writes for. */
  ghost function Committing(p: Policy, s: Moment, g: nat): Reached
    requires g in s.disk.journal && g in s.disk.results
  {
    var accepted := RegisterIn(p.spec, Tail(p.spec, s.disk, g, 1), s.disk.catalog, g).Ok?;
    var count := if accepted then 4 else 1;
    if s.writes >= count
    then Reached(if accepted then Finished else Raised, s.(disk := Tail(p.spec, s.disk, g, count), writes := s.writes - count))
    else Reached(Down, s.(disk := Tail(p.spec, s.disk, g, s.writes), writes := 0))
  }

  // ----- a generation -----

  datatype Attempted = Attempted(outcome: Outcome, published: bool, at: Moment)

  function AttemptAt(p: Policy, s: Moment, g: nat, restarts: nat): (a: Attempted)
    ensures a.outcome == Finished ==>
              && |a.at.signals| < |s.signals| && g in a.at.disk.journal && (a.published ==> g in a.at.disk.results)
  {
    var entered := Wrote(s, WriteTx(s.disk, g, Tx(Running, restarts, p.spec.schema, p.spec.profile, map[])));
    if entered.outcome.Down? then Attempted(Down, false, entered.at)
    else
      var stated := Wrote(entered.at, entered.at.disk);
      if stated.outcome.Down? then Attempted(Down, false, stated.at) else ExitAt(stated.at, g)
  }

  /** The driver's exit. */
  function ExitAt(s: Moment, g: nat): (a: Attempted)
    requires g in s.disk.journal
    ensures a.outcome == Finished ==>
              && |a.at.signals| < |s.signals| && g in a.at.disk.journal && (a.published ==> g in a.at.disk.results)
  {
    var heard := Heard(s);
    match Coming(s.signals)
    case Some(DriverDone(result, newFiles)) =>
      Attempted(Finished, true, heard.(disk := s.disk.(results := s.disk.results[g := result], files := Rewritten(s.disk, newFiles))))
    case Some(DriverFailed(newFiles)) =>
      var left := s.disk.(files := Rewritten(s.disk, newFiles));
      var failed := Wrote(heard.(disk := left), WriteTx(left, g, left.journal[g].(status := Failed)));
      Attempted(failed.outcome, false, failed.at)
    case Some(Killed(newFiles)) => Attempted(Down, false, heard.(disk := s.disk.(files := Rewritten(s.disk, newFiles))))
    case _ => Attempted(Down, false, heard)
  }

  /** Attempts until a driver publishes, bounded by the restarts allowed. */
  function AttemptsAt(p: Policy, s: Moment, g: nat, restarts: nat): (r: Reached)
    ensures r.outcome == Finished ==> |r.at.signals| < |s.signals| && g in r.at.disk.journal && g in r.at.disk.results
    decreases |s.signals|
  {
    var a := AttemptAt(p, s, g, restarts);
    if a.outcome != Finished || a.published then Reached(a.outcome, a.at)
    else if !p.resumable || restarts >= p.spec.maxRestarts then Reached(Raised, a.at)
    else AttemptsAt(p, a.at, g, restarts + 1)
  }

  /** The restarts an earlier process has written down. */
  function Before(d: Disk, g: nat): nat {
    if g in d.journal then d.journal[g].restarts else 0
  }

  /** Attempts, validation, commit, and the Arena that is due unless the operator wants a stop. */
  ghost function GenerationAt(p: Policy, s: Moment, g: nat): (r: Reached)
    ensures r.outcome == Finished ==> |r.at.signals| < |s.signals|
  {
    if g in s.disk.journal && (s.disk.journal[g].status == Committed || !p.resumable) then Reached(Raised, s)
    else
      var driven := AttemptsAt(p, s, g, Before(s.disk, g));
      if driven.outcome != Finished then driven
      else if !Validates(driven.at.disk.files, driven.at.disk.results[g]) then Reached(Raised, driven.at)
      else
        var committed := Committing(p, driven.at, g);
        if committed.outcome != Finished then committed
        else if !driven.at.disk.results[g].healthy then Reached(Raised, committed.at)
        else
          var polled := Polled(committed.at);
          if !polled.stop && ArenaDue(p.spec, polled.disk.runtime.origin, g) then Judging(p, polled, g) else Reached(Finished, polled)
  }

  // ----- the run -----

  /** The last state write and the manifest beside it. */
  function Ending(s: Moment, status: RunStatus): Reached {
    var stated := Restated(s, status);
    if stated.outcome.Down? then stated else Wrote(stated.at, stated.at.disk)
  }

  /** One turn of the loop: the run is over, or goes on from a later moment. */
  datatype Turn = Over(end: Reached) | Again(at: Moment)

  ghost function TurnAt(p: Policy, max: Option<nat>, s: Moment): (t: Turn)
    ensures t.Again? ==> |t.at.signals| < |s.signals|
  {
    hide GenerationAt, Catching, Polled, Ending, Restated;
    var polled := Polled(s);
    var committed := s.disk.runtime.last;
    if polled.stop then Over(Ending(polled, SoftStopped))
    else
      var caught := Catching(p, polled);
      if caught.outcome == Finished && max.Some? && committed >= max.value then Over(Ending(caught.at, Completed))
      else
        var unit := if caught.outcome == Finished then GenerationAt(p, caught.at, committed + 1) else caught;
        match unit.outcome
        case Down => Over(unit)
        case Raised => Over(Reached(Raised, Restated(unit.at, RecoveryRequired).at))
        case Finished => Again(unit.at)
  }

  /** One safe unit after another. */
  ghost function LoopAt(p: Policy, max: Option<nat>, s: Moment): Reached
    decreases |s.signals|
  {
    hide TurnAt;
    match TurnAt(p, max, s)
    case Over(end) => end
    case Again(at) => LoopAt(p, max, at)
  }

  ghost function RunAt(p: Policy, max: Option<nat>, s: Moment): Reached {
    var recovered := Recovering(p, s);
    if recovered.outcome != Finished then recovered
    else
      var d := recovered.at.disk;
      if d.manifest.fingerprint != d.catalog || d.runtime.status in {SoftStopped, Completed, RecoveryRequired} then Reached(Raised, recovered.at)
      else
        var active := Restated(recovered.at, Active);
        if active.outcome.Down? then active else LoopAt(p, max, active.at)
  }

  /** Reopening the lineage: recovery, the strict load, the stop request withdrawn, the state back to CREATED. */
  ghost function ResumeAt(p: Policy, s: Moment): Reached {
    var recovered := Recovering(p, s);
    if recovered.outcome != Finished then recovered
    else
      var d := recovered.at.disk;
      if d.manifest.fingerprint != d.catalog || d.runtime.status == Active then Reached(Raised, recovered.at)
      else Restated(recovered.at.(stop := false), GenerationCommit.Created)
  }
}
