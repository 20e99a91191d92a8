/**
 The auto-updater: it spawns one client process, restarts it when it dies, and replaces it when a
 new release appears. Between two `await` points its code runs without interruption; at an `await`
 point a termination signal may arrive, and the client may die at any time.
 */
module Updater {
  import opened Prelude

  type Pid = nat
  type Checksum = nat

  // `alive`: the spawned clients that the operating system still runs.
  datatype Runner = Runner(child: Option<Pid>, release: Option<Checksum>, alive: set<Pid>)

  datatype Outcome = Ok | Err

  // ------------------------------------------------------------------ the process operations

  /** What the operating system answers to `wait`, or that the process id does not even convert. A
      failed `kill` is not noticed: the code goes on to `wait`. */
  datatype Termination = Waited | WaitFailed | PidOutOfRange

  function Terminate(r: Runner, t: Termination): (Runner, Outcome) {
    match r.child
    case None => (r, Ok)
    case Some(pid) =>
      match t
      case PidOutOfRange => (r, Err)
      case Waited => (r.(child := None, alive := r.alive - {pid}), Ok)
      case WaitFailed => (r.(child := None), Ok)
  }

  /** `spawned` is the new process, or `None` if spawning failed. */
  function RunBinary(r: Runner, spawned: Option<Pid>): (Runner, Outcome) {
    if r.child.Some? || r.release == None || spawned == None then (r, Err)
    else (r.(child := spawned, alive := r.alive + {spawned.value}), Ok)
  }

  /** `maybe_restart_client`; `tryWait` says whether the status query itself works. */
  function MaybeRestart(r: Runner, tryWait: bool, spawned: Option<Pid>): (Runner, Outcome) {
    match r.child
    case None => RunBinary(r, spawned)
    case Some(pid) =>
      if !tryWait then (r, Err)
      else if pid in r.alive then (r, Ok)
      else RunBinary(r.(child := None), spawned)
  }

  // ------------------------------------------------------------------ the updater as a state machine

  // The `await` points of `auto_update`, and how `run` ended.
  datatype Point =
    | AwaitFirstRelease
    | AwaitFirstDownload(target: Checksum)
    | AwaitRelease
    | AwaitDownload(target: Checksum)
    | Sleeping
    | Failed
    | Returned(o: Outcome)
    | Panicked

  datatype World = World(point: Point, r: Runner)

  /** What the environment does before the code goes on from an `await` point. `release`: the answer
      of the chain (`None`: the query failed; `Some(None)`: no release). `loaded`: a matching binary
      was on disk. `io`: files and download work. */
  datatype Step =
    | ChildDies(pid: Pid)
    | Signal(t: Termination)
    | Resume(release: Option<Option<Checksum>>, loaded: bool, io: bool, tryWait: bool, t: Termination,
             spawned: Option<Pid>)

  /** A spawned process is none of those still running. */
  predicate Enabled(w: World, step: Step) {
    match step
    case ChildDies(_) => true
    case Signal(_) => AtAwait(w.point)
    case Resume(_, _, _, _, _, spawned) => spawned.Some? ==> spawned.value !in w.r.alive
  }

  predicate AtAwait(p: Point) {
    !p.Failed? && !p.Returned? && !p.Panicked?
  }

  function LoopTop(r: Runner, tryWait: bool, spawned: Option<Pid>): World {
    var (r', o) := MaybeRestart(r, tryWait, spawned);
    World(if o == Ok then AwaitRelease else Failed, r')
  }

  /** Run the binary that was just obtained, then enter the loop; the fresh client is alive, so the
      first pass of `maybe_restart_client` changes nothing. */
  function Launch(r: Runner, spawned: Option<Pid>, next: Point): World {
    var (r', o) := RunBinary(r, spawned);
    World(if o == Ok then next else Failed, r')
  }

  function Exit(r: Runner, t: Termination): World {
    var (r', o) := Terminate(r, t);
    World(Returned(o), r')
  }

  function After(w: World, step: Step): World {
    match step
    case ChildDies(pid) => w.(r := w.r.(alive := w.r.alive - {pid}))
    case Signal(t) => if AtAwait(w.point) then Exit(w.r, t) else w
    case Resume(release, loaded, io, tryWait, t, spawned) =>
      match w.point
      case AwaitFirstRelease =>
        if release == None then w.(point := Failed)
        else if release.value == None then w.(point := Panicked)
        else if loaded then Launch(w.r.(release := release.value), spawned, AwaitRelease)
        else w.(point := AwaitFirstDownload(release.value.value))
      case AwaitFirstDownload(target) =>
        if io then Launch(w.r.(release := Some(target)), spawned, AwaitRelease) else w.(point := Failed)
      case AwaitRelease =>
        if release == None then w.(point := Failed)
        else if release.value == None then w.(point := Sleeping)
        else if w.r.release == None then w.(point := Failed)
        else if release.value == w.r.release then w.(point := Sleeping)
        else
          var (r, o) := Terminate(w.r, t);
          if o == Err || !io then World(Failed, r)
          else World(AwaitDownload(release.value.value), r.(release := None))
      case AwaitDownload(target) =>
        if io then Launch(w.r.(release := Some(target)), spawned, Sleeping) else w.(point := Failed)
      case Sleeping => LoopTop(w.r, tryWait, spawned)
      case Failed => Exit(w.r, t)
      case Returned(_) => w
      case Panicked => w
  }

  /** The answer to the termination that a step performs, if it performs one. */
  function Terminates(w: World, step: Step): Option<Termination> {
    match step
    case ChildDies(_) => None
    case Signal(t) => if AtAwait(w.point) then Some(t) else None
    case Resume(release, _, _, _, t, _) =>
      if w.point.Failed? then Some(t)
      else if w.point.AwaitRelease? && release.Some? && release.value.Some? && w.r.release.Some?
              && release.value != w.r.release then Some(t)
      else None
  }

  /** Waiting fails for a child that is still running. */
  predicate LosesLiveChild(w: World, step: Step) {
    Terminates(w, step) == Some(WaitFailed) && w.r.child.Some? && w.r.child.value in w.r.alive
  }

  /** The only client that can be alive is the one the runner holds. */
  ghost predicate Inv(w: World) {
    && (forall p :: p in w.r.alive ==> w.r.child == Some(p))
    && (w.point.AwaitFirstRelease? || w.point.AwaitFirstDownload? || w.point.Panicked? ==> w.r.child == None)
    && (w.point == Returned(Ok) ==> w.r.child == None)
  }

  /** Exactly when a step keeps the invariant: unless it forgets a running child. */
  lemma {:induction false} StepKeepsInvIff(w: World, step: Step)
    requires Inv(w) && Enabled(w, step)
    ensures Inv(After(w, step)) <==> !LosesLiveChild(w, step)
  {
  }

  ghost predicate ValidRun(w: World, steps: seq<Step>)
    decreases |steps|
  {
    steps == [] || (Enabled(w, steps[0]) && ValidRun(After(w, steps[0]), steps[1..]))
  }

  /** Some step of the run forgets a running child. */
  predicate Loses(w: World, steps: seq<Step>)
    decreases |steps|
  {
    steps != [] && (LosesLiveChild(w, steps[0]) || Loses(After(w, steps[0]), steps[1..]))
  }

  function Final(w: World, steps: seq<Step>): World
    decreases |steps|
  {
    if steps == [] then w else Final(After(w, steps[0]), steps[1..])
  }

  /** Main result: in every reachable state at most one client is alive, and none is when `run`
      returns `Ok`, provided no wait failed on a running child. */
  lemma {:induction false} OneClientAtMost(w: World, steps: seq<Step>)
    requires Inv(w) && ValidRun(w, steps) && !Loses(w, steps)
    ensures var w' := Final(w, steps);
            && Inv(w') && |w'.r.alive| <= 1
            && (w'.point == Returned(Ok) ==> w'.r.alive == {})
    decreases |steps|
  {
    if steps != [] {
      StepKeepsInvIff(w, steps[0]);
      OneClientAtMost(After(w, steps[0]), steps[1..]);
    } else if w.r.alive != {} {
      assert w.r.alive == {w.r.child.value};
    }
  }

  lemma {:induction false} InitialIsGood()
    ensures Inv(World(AwaitFirstRelease, Runner(None, None, {})))
  {
  }

  // ------------------------------------------------------------------ the updater itself

  class RunnerProcess {
    var childProc: Option<Pid>
    var downloadedRelease: Option<Checksum>
    // the clients in the process table of the operating system
    var alive: set<Pid>

    constructor ()
      ensures Value() == Runner(None, None, {})
    {
      childProc, downloadedRelease, alive := None, None, {};
    }

    function Value(): Runner
      reads this
    {
      Runner(childProc, downloadedRelease, alive)
    }

    method TerminateProcAndWait(t: Termination) returns (o: Outcome)
      modifies this
      ensures (Value(), o) == Terminate(old(Value()), t)
    {
      if childProc == None {
        return Ok;
      }
      if t == PidOutOfRange {
        return Err;
      }
      if t == Waited {
        alive := alive - {childProc.value};
      }
      childProc := None;
      return Ok;
    }

    method SpawnBinary(spawned: Option<Pid>) returns (o: Outcome)
      modifies this
      ensures (Value(), o) == RunBinary(old(Value()), spawned)
    {
      if childProc.Some? || downloadedRelease == None || spawned == None {
        return Err;
      }
      childProc := spawned;
      alive := alive + {spawned.value};
      return Ok;
    }

    /** The child has exited exactly when it is no longer in the process table. */
    method MaybeRestartClient(tryWait: bool, spawned: Option<Pid>) returns (o: Outcome)
      modifies this
      ensures (Value(), o) == MaybeRestart(old(Value()), tryWait, spawned)
    {
      if childProc.Some? {
        if !tryWait {
          return Err;
        }
        if childProc.value in alive {
          return Ok;
        }
        childProc := None;
      }
      o := SpawnBinary(spawned);
    }

    method Launched(release: Checksum, spawned: Option<Pid>, goOn: Point) returns (next: Point)
      modifies this
      ensures World(next, Value()) == Launch(old(Value()).(release := Some(release)), spawned, goOn)
    {
      downloadedRelease := Some(release);
      var o := SpawnBinary(spawned);
      next := if o == Ok then goOn else Failed;
    }

    /** The code of `run` and `auto_update` between two `await` points. */
    method Advance(point: Point, step: Step) returns (next: Point)
      modifies this
      ensures World(next, Value()) == After(World(point, old(Value())), step)
    {
      next := point;
      match step {
        case ChildDies(pid) => alive := alive - {pid};
        case Signal(t) =>
          if AtAwait(point) {
            var o := TerminateProcAndWait(t);
            next := Returned(o);
          }
        case Resume(release, loaded, io, tryWait, t, spawned) =>
          match point {
            case AwaitFirstRelease =>
              if release == None {
                next := Failed;
              } else if release.value == None {
                next := Panicked;
              } else if loaded {
                next := Launched(release.value.value, spawned, AwaitRelease);
              } else {
                next := AwaitFirstDownload(release.value.value);
              }
            case AwaitFirstDownload(target) =>
              if io {
                next := Launched(target, spawned, AwaitRelease);
              } else {
                next := Failed;
              }
            case AwaitRelease =>
              if release == None {
                next := Failed;
              } else if release.value == None {
                next := Sleeping;
              } else if downloadedRelease == None {
                next := Failed;
              } else if release.value != downloadedRelease {
                var o := TerminateProcAndWait(t);
                if o == Err || !io {
                  next := Failed;
                } else {
                  downloadedRelease := None;
                  next := AwaitDownload(release.value.value);
                }
              } else {
                next := Sleeping;
              }
            case AwaitDownload(target) =>
              if io {
                next := Launched(target, spawned, Sleeping);
              } else {
                next := Failed;
              }
            case Sleeping =>
              var o := MaybeRestartClient(tryWait, spawned);
              next := if o == Ok then AwaitRelease else Failed;
            case Failed =>
              var o := TerminateProcAndWait(t);
              next := Returned(o);
            case Returned(_) =>
            case Panicked =>
          }
      }
    }

    /** The updater under any schedule of answers, deaths and signals. */
    method Run(steps: seq<Step>) returns (point: Point)
      requires Value() == Runner(None, None, {})
      requires ValidRun(World(AwaitFirstRelease, Value()), steps) && !Loses(World(AwaitFirstRelease, Value()), steps)
      modifies this
      ensures |alive| <= 1 && forall p :: p in alive ==> childProc == Some(p)
      ensures point == Returned(Ok) ==> alive == {}
    {
      ghost var start := World(AwaitFirstRelease, Value());
      point := AwaitFirstRelease;
      for i := 0 to |steps|
        invariant Final(World(point, Value()), steps[i..]) == Final(start, steps)
      {
        assert steps[i..][1..] == steps[i + 1..];
        point := Advance(point, steps[i]);
      }
      OneClientAtMost(start, steps);
    }
  }

  // ------------------------------------------------------------------ what the updater is for

  /** A client that has died is started again: if the status query and spawning work, the next pass
      holds a running client of the same release. A client that runs is left alone. */
  lemma {:induction false} DeadClientRestarts(w: World, step: Step)
    requires w.point == Sleeping && step.Resume? && step.tryWait && step.spawned.Some? && w.r.release.Some?
    ensures var w' := After(w, step);
            && w'.point == AwaitRelease && w'.r.release == w.r.release
            && w'.r.child.Some? && w'.r.child.value in w'.r.alive
            && (if w.r.child.Some? && w.r.child.value in w.r.alive then w'.r == w.r else w'.r.child == step.spawned)
  {
  }

  /** A new release replaces the client: once the old one is gone, files and download work and
      spawning works, the new release runs. The release already running changes nothing. */
  lemma {:induction false} NewReleaseRuns(w: World, update: Step, download: Step, release: Checksum)
    requires w.point == AwaitRelease && w.r.release.Some? && update.Resume? && download.Resume?
    requires update.release == Some(Some(release)) && update.t == Waited && update.io && download.io
    requires download.spawned.Some?
    ensures var w' := After(w, update);
            if w.r.release == Some(release) then w' == w.(point := Sleeping)
            else
              var w'' := After(w', download);
              && w''.point == Sleeping && w''.r.release == Some(release)
              && w''.r.child == download.spawned && download.spawned.value in w''.r.alive
              && (w.r.child.Some? && w.r.child != download.spawned ==> w.r.child.value !in w''.r.alive)
  {
  }

  /** At the start, the release on chain is loaded from disk or downloaded, and run. */
  lemma {:induction false} FirstReleaseRuns(first: Step, download: Step, release: Checksum)
    requires first.Resume? && download.Resume? && first.release == Some(Some(release))
    requires first.spawned.Some? && download.spawned.Some? && download.io
    ensures var w := After(World(AwaitFirstRelease, Runner(None, None, {})), first);
            var w' := if first.loaded then w else After(w, download);
            && w'.point == AwaitRelease && w'.r.release == Some(release)
            && w'.r.child.Some? && w'.r.alive == {w'.r.child.value}
  {
  }

  /** On a signal, or after any error, the client is terminated before `run` returns. */
  lemma {:induction false} ExitTerminates(w: World, step: Step)
    requires (step.Signal? && AtAwait(w.point)) || (step.Resume? && w.point == Failed)
    requires step.t == Waited
    ensures var w' := After(w, step);
            && w'.point == Returned(Ok) && w'.r.child == None
            && (w.r.child.Some? ==> w.r.child.value !in w'.r.alive)
  {
  }

  // ------------------------------------------------------------------ runs that lose a child

  /** The client is out of the updater's hands: it runs and is not the child that is held. */
  predicate Stray(w: World, p: Pid) {
    p in w.r.alive && w.r.child != Some(p)
  }

  /** A lost client stays lost: whatever the updater does, it runs on until it dies by itself. */
  lemma {:induction false} StrayStays(w: World, step: Step, p: Pid)
    requires Stray(w, p) && Enabled(w, step)
    ensures Stray(After(w, step), p) <==> step != ChildDies(p)
  {
  }

  /** Some state of the run has such a client. */
  ghost predicate EverStray(w: World, steps: seq<Step>)
    decreases |steps|
  {
    (exists p :: Stray(w, p)) || (steps != [] && EverStray(After(w, steps[0]), steps[1..]))
  }

  /** Over whole runs: some state has a client running outside the updater's hands if and only if
      some wait failed on a running child. */
  lemma {:induction false} StrayIff(w: World, steps: seq<Step>)
    requires Inv(w) && ValidRun(w, steps)
    ensures EverStray(w, steps) <==> Loses(w, steps)
    decreases |steps|
  {
    if steps != [] {
      var w' := After(w, steps[0]);
      if LosesLiveChild(w, steps[0]) {
        assert Stray(w', w.r.child.value);
      } else {
        StepKeepsInvIff(w, steps[0]);
        StrayIff(w', steps[1..]);
      }
    }
  }

  /** And then the next release is started beside it: a run from the start, with one failed wait, that
      ends with two clients alive. */
  lemma {:induction false} FailedWaitLeavesTwo(p: Pid, q: Pid, old': Checksum, new': Checksum)
      returns (steps: seq<Step>)
    requires p != q && old' != new'
    ensures var start := World(AwaitFirstRelease, Runner(None, None, {}));
            && Inv(start) && ValidRun(start, steps) && Loses(start, steps)
            && Final(start, steps).r.alive == {p, q}
  {
    var launch := Resume(Some(Some(old')), true, true, true, Waited, Some(p));
    var replace := Resume(Some(Some(new')), false, true, true, WaitFailed, None);
    var relaunch := Resume(None, false, true, true, Waited, Some(q));
    steps := [launch, replace, relaunch];
    var w0 := World(AwaitFirstRelease, Runner(None, None, {}));
    var w1 := After(w0, launch);
    assert w1 == World(AwaitRelease, Runner(Some(p), Some(old'), {p}));
    var w2 := After(w1, replace);
    assert w2 == World(AwaitDownload(new'), Runner(None, None, {p}));
    var w3 := After(w2, relaunch);
    assert steps[1..] == [replace, relaunch] && steps[1..][1..] == [relaunch];
    RunOfOne(w2, relaunch);
    assert LosesLiveChild(w1, replace);
    assert ValidRun(w1, steps[1..]) && Final(w1, steps[1..]) == w3;
    assert Loses(w1, steps[1..]);
  }

  lemma {:induction false} RunOfOne(w: World, step: Step)
    ensures ValidRun(w, [step]) <==> Enabled(w, step)
    ensures Final(w, [step]) == After(w, step)
  {
    assert [step][1..] == [];
    assert ValidRun(After(w, step), []) && Final(After(w, step), []) == After(w, step);
  }
}
