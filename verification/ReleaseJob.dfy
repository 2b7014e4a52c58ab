/** The Job releases of docker/release-executor/release_executor.py: deploy_job and rollback_job with the schedules
    they pause. As in ReleaseService, a script says of each command whether it fails before or after it took effect, the
    commands that reported a failure are counted, and ghost logs record the state after each command and the
    definitions that were read back or executed. */
module ReleaseJob {
  import opened Faults
  import opened ReleaseService

  type Schedule = string

  const CHECK := "--check-runtime"
  const WORKER := "cgm_sanplat_param.worker"
  const DIGEST := "@sha256:"

  /** The operational part of a Job definition. */
  datatype JobSpec = JobSpec(image: string, runtime: Runtime, checkOnly: bool, args: seq<string>, other: nat)
  {
    /** An execution of this definition does business work. */
    ghost predicate Works() { !checkOnly && CHECK !in args }
  }

  /** A definition as it was when it was read, or when it was executed as a check. */
  datatype Look = ReadBack(spec: JobSpec) | Execution(spec: JobSpec)

  datatype JobState = JobState(spec: JobSpec, enabled: set<Schedule>, authorized: set<Sha>)

  /** How a Job release ends. `Untouched` stands for an exception before the definition was touched, after which the
      schedules run as before unless one of them could not be resumed. Two exceptions leave the schedules paused:
      `Unverified`, if the earlier definition is not known to be back, and `Unrevoked`, if it is but the new commit
      could not be revoked. `Resuming` stands for a schedule that could not be resumed at the end. */
  datatype JobExit = Done | RolledBack | Untouched(running: bool) | Unverified | Unrevoked | Resuming

  /** The image is named by its digest. */
  ghost predicate Immutable(image: string) { exists a: string, b: string :: image == a + DIGEST + b }

  lemma DigestAt(image: string, a: string, b: string)
    requires image == a + DIGEST + b
    ensures |a| + |DIGEST| <= |image| && image[|a|..|a| + |DIGEST|] == DIGEST
  {
  }

  /** DIGEST in image. */
  method NamesDigest(image: string) returns (found: bool)
    ensures found == Immutable(image)
  {
    for i: nat := 0 to |image| + 1
      invariant forall a: string, b: string | image == a + DIGEST + b :: |a| >= i
    {
      if i + |DIGEST| <= |image| && image[i..i + |DIGEST|] == DIGEST {
        assert image == image[..i] + DIGEST + image[i + |DIGEST|..];
        return true;
      }
      forall a: string, b: string | image == a + DIGEST + b ensures |a| > i { DigestAt(image, a, b); }
    }
    return false;
  }

  /** The command of a worker of the approved profile. */
  ghost predicate Approved(args: seq<string>) {
    ["-m", "cgm_sanplat_param.worker"] <= args && exists i :: 0 <= i < |args| && args[i] == "--type"
  }

  class Job {
    /** The schedules that belong to the service. */
    const names: seq<Schedule>
    const script: seq<Fault>
    var spec: JobSpec
    var enabled: set<Schedule>
    var authorized: set<Sha>
    /** The commands sent so far, and how many of them reported a failure. */
    var commands: nat
    var failures: nat
    ghost var trace: seq<JobState>
    /** What was looked at, in order. */
    ghost var looks: seq<Look>

    ghost function Now(): JobState
      reads this`spec, this`enabled, this`authorized
    {
      JobState(spec, enabled, authorized)
    }

    constructor (names: seq<Schedule>, script: seq<Fault>, spec: JobSpec, enabled: set<Schedule>, authorized: set<Sha>)
      ensures this.names == names && this.script == script && Now() == JobState(spec, enabled, authorized)
      ensures trace == [Now()] && looks == [] && commands == 0 && failures == 0
    {
      this.names, this.script, this.spec, this.enabled, this.authorized := names, script, spec, enabled, authorized;
      this.commands, this.failures, this.looks := 0, 0, [];
      this.trace := [JobState(spec, enabled, authorized)];
    }

    /** The schedules that were running when the release began. */
    ghost function Running(start: set<Schedule>): set<Schedule> { set n | n in start && n in names }

    // Commands

    /** Nothing in the script fails. */
    ghost predicate Smooth() { forall f | f in script :: f.Succeeds? }

    /** How the next command falls out: one that is not possible fails. */
    method Next(possible: bool) returns (fault: Fault)
      modifies this`commands, this`failures
      ensures commands == old(commands) + 1 && failures == old(failures) + if fault.Succeeds? then 0 else 1
      ensures fault == if possible then Scripted(script, old(commands)) else FailsBefore
      ensures possible && Smooth() ==> fault.Succeeds?
    {
      fault := if possible then Scripted(script, commands) else FailsBefore;
      commands := commands + 1;
      if fault != Succeeds { failures := failures + 1; }
    }

    ghost method Record()
      modifies this`trace
      ensures trace == old(trace) + [Now()]
    {
      trace := trace + [Now()];
    }

    method Authorize(sha: Sha) returns (ok: bool)
      modifies this`authorized, this`trace, this`commands, this`failures
      ensures authorized == old(authorized) || authorized == old(authorized) + {sha}
      ensures ok ==> sha in authorized
      ensures commands == old(commands) + 1 && failures == old(failures) + if ok then 0 else 1
      ensures Smooth() && ExactCommit(sha) ==> ok
      ensures trace == old(trace) + [Now()]
    {
      var full := FullMatch(sha);
      var fault := Next(full);
      if fault != FailsBefore { authorized := authorized + {sha}; }
      Record();
      ok := fault == Succeeds;
    }

    method Withdraw(sha: Sha) returns (ok: bool)
      modifies this`authorized, this`trace, this`commands, this`failures
      ensures authorized == old(authorized) || authorized == old(authorized) - {sha}
      ensures ok ==> sha !in authorized
      ensures commands == old(commands) + 1 && failures == old(failures) + if ok then 0 else 1
      ensures Smooth() && ExactCommit(sha) ==> ok
      ensures trace == old(trace) + [Now()]
    {
      var full := FullMatch(sha);
      var fault := Next(full);
      if fault != FailsBefore { authorized := authorized - {sha}; }
      Record();
      ok := fault == Succeeds;
    }

    /** gcloud run jobs update, or jobs replace. */
    method SetSpec(next: JobSpec) returns (ok: bool)
      modifies this`spec, this`trace, this`commands, this`failures
      ensures spec == old(spec) || spec == next
      ensures ok ==> spec == next
      ensures commands == old(commands) + 1 && failures == old(failures) + if ok then 0 else 1
      ensures Smooth() ==> ok
      ensures trace == old(trace) + [Now()]
    {
      var fault := Next(true);
      if fault != FailsBefore { spec := next; }
      Record();
      ok := fault == Succeeds;
    }

    method Pause(name: Schedule) returns (ok: bool)
      modifies this`enabled, this`trace, this`commands, this`failures
      ensures enabled == old(enabled) || enabled == old(enabled) - {name}
      ensures ok ==> name !in enabled
      ensures commands == old(commands) + 1 && failures == old(failures) + if ok then 0 else 1
      ensures Smooth() ==> ok
      ensures trace == old(trace) + [Now()]
    {
      var fault := Next(true);
      if fault != FailsBefore { enabled := enabled - {name}; }
      Record();
      ok := fault == Succeeds;
    }

    method Resume(name: Schedule) returns (ok: bool)
      modifies this`enabled, this`trace, this`commands, this`failures
      ensures enabled == old(enabled) || enabled == old(enabled) + {name}
      ensures ok ==> name in enabled
      ensures commands == old(commands) + 1 && failures == old(failures) + if ok then 0 else 1
      ensures Smooth() ==> ok
      ensures trace == old(trace) + [Now()]
    {
      var fault := Next(true);
      if fault != FailsBefore { enabled := enabled + {name}; }
      Record();
      ok := fault == Succeeds;
    }

    /** A read or a save that leaves the modelled state alone. */
    method Attempt() returns (ok: bool)
      modifies this`commands, this`failures
      ensures commands == old(commands) + 1 && failures == old(failures) + if ok then 0 else 1
      ensures Smooth() ==> ok
    {
      var fault := Next(true);
      ok := fault == Succeeds;
    }

    /** gcloud run jobs describe. */
    method ReadSpec() returns (ok: bool, seen: JobSpec)
      modifies this`commands, this`failures, this`looks
      ensures commands == old(commands) + 1 && failures == old(failures) + if ok then 0 else 1
      ensures Smooth() ==> ok
      ensures seen == spec && looks == old(looks) + [ReadBack(spec)]
    {
      var fault := Next(true);
      ok, seen, looks := fault == Succeeds, spec, looks + [ReadBack(spec)];
    }

    /** check_job_runtime: the definition, as it is, is executed. */
    method CheckRuntime() returns (ok: bool)
      modifies this`commands, this`failures, this`looks
      ensures commands == old(commands) + 1 && failures == old(failures) + if ok then 0 else 1
      ensures Smooth() ==> ok
      ensures looks == old(looks) + [Execution(spec)]
    {
      looks := looks + [Execution(spec)];
      var fault := Next(true);
      ok := fault == Succeeds;
    }

    // Schedules

    /** A state of a Job release. A schedule that was running and is enabled finds one of the two finished definitions;
        a scoped definition that does business work runs an authorized commit; other schedules and the grants of other
        commits are left alone. */
    ghost predicate Fine(s: JobState, start: JobState, final: JobSpec) {
      && (s.enabled * Running(start.enabled) != {} ==> s.spec == start.spec || s.spec == final)
      && (s.spec.Works() && Scoped(s.spec.runtime) ==> s.spec.runtime.sha in s.authorized)
      && s.enabled <= start.enabled && start.enabled - Running(start.enabled) <= s.enabled
      && forall sha | sha != start.spec.runtime.sha && sha != final.runtime.sha ::
           sha in s.authorized <==> sha in start.authorized
    }

    lemma StartsFine(start: JobState, final: JobSpec)
      requires start.spec.Works() && Scoped(start.spec.runtime) ==> start.spec.runtime.sha in start.authorized
      ensures Fine(start, start, final)
    {
    }

    ghost predicate FineSince(n: nat, start: JobState, final: JobSpec)
      reads this`trace
    {
      n <= |trace| && forall i | n <= i < |trace| :: Fine(trace[i], start, final)
    }

    /** What was executed as a check had this image and runtime and could do no business work. */
    ghost predicate Harmless(n: nat, image: string, runtime: Runtime)
      reads this`looks
    {
      n <= |looks|
      && forall i | n <= i < |looks| && looks[i].Execution? ::
           var spec := looks[i].spec;
           spec.image == image && spec.runtime == runtime && spec.checkOnly && CHECK in spec.args
    }

    /** resume_job_schedules. */
    method ResumeSchedules(active: set<Schedule>, ghost start: JobState, ghost final: JobSpec) returns (ok: bool)
      requires Fine(Now(), start, final) && active <= Running(start.enabled)
      requires spec == start.spec || spec == final
      modifies this`enabled, this`trace, this`commands, this`failures
      ensures old(trace) <= trace && FineSince(old(|trace|), start, final) && Fine(Now(), start, final)
      ensures ok ==> enabled == old(enabled) + active
      ensures failures == old(failures) + if ok then 0 else 1
      ensures Smooth() ==> ok
    {
      ok := true;
      var todo := active;
      while todo != {}
        invariant ok && failures == old(failures)
        invariant todo <= active && active - todo <= enabled && old(enabled) <= enabled <= old(enabled) + active
        invariant old(trace) <= trace && FineSince(old(|trace|), start, final) && Fine(Now(), start, final)
        decreases todo
      {
        var name :| name in todo;
        ok := Resume(name);
        if !ok { return; }
        todo := todo - {name};
      }
    }

    /** pause_job_schedules: all running schedules are paused, or the ones touched so far are resumed again. */
    method PauseSchedules(ghost start: JobState, ghost final: JobSpec)
      returns (ok: bool, active: set<Schedule>, resumed: bool)
      requires Now() == start && Fine(start, start, final)
      modifies this`enabled, this`trace, this`commands, this`failures
      ensures old(trace) <= trace && FineSince(old(|trace|), start, final) && Fine(Now(), start, final)
      ensures ok ==> active == Running(start.enabled) && enabled == start.enabled - active
      ensures ok <==> failures == old(failures)
      ensures !ok ==> failures == old(failures) + if resumed then 1 else 2
      ensures !ok && resumed ==> enabled == start.enabled
      ensures Smooth() ==> ok
    {
      active, resumed := {}, false;
      for i := 0 to |names|
        invariant active == Running(start.enabled) * (set k | 0 <= k < i :: names[k])
        invariant enabled == start.enabled - active && !resumed && failures == old(failures)
        invariant old(trace) <= trace && FineSince(old(|trace|), start, final) && Fine(Now(), start, final)
      {
        ok := Attempt();
        if ok && names[i] in enabled {
          active := active + {names[i]};
          ok := Pause(names[i]);
        }
        if !ok {
          resumed := ResumeSchedules(active, start, final);
          return;
        }
        assert (set k | 0 <= k < i + 1 :: names[k]) == (set k | 0 <= k < i :: names[k]) + {names[i]};
      }
      ok := true;
      assert Running(start.enabled) * (set k | 0 <= k < |names| :: names[k]) == Running(start.enabled);
    }

    // deploy_job

    ghost predicate AllPaused(start: JobState)
      reads this`enabled
    {
      enabled == start.enabled - Running(start.enabled)
    }

    /** The definition a deployment of this image and commit is to end with. */
    ghost function Promoted(before: JobSpec, image: string, release: Sha): JobSpec {
      JobSpec(image, Runtime(RUNTIME_V1, release), false, before.args, before.other)
    }

    /** The try block: stage a definition that can only check, read it back, authorize and check it, promote it, retire
        the old commit. The schedules stay paused throughout. */
    method TryDeploy(image: string, release: Sha, before: JobSpec, ghost start: JobState)
      returns (ok: bool, granted: bool)
      requires Fine(Now(), start, Promoted(before, image, release)) && AllPaused(start)
      requires spec == before == start.spec && authorized == start.authorized
      modifies this`spec, this`authorized, this`trace, this`commands, this`failures, this`looks
      ensures old(trace) <= trace && FineSince(old(|trace|), start, Promoted(before, image, release))
      ensures Fine(Now(), start, Promoted(before, image, release))
      ensures old(looks) <= looks && Harmless(old(|looks|), image, Runtime(RUNTIME_V1, release))
      ensures failures == old(failures) + if ok then 0 else 1
      ensures Smooth() && ExactCommit(release) && (Scoped(before.runtime) ==> ExactCommit(before.runtime.sha)) ==> ok
      ensures granted <==> commands >= old(commands) + 3
      ensures !granted ==> authorized == start.authorized
      ensures ok ==>
                && spec == Promoted(before, image, release)
                && looks == old(looks) + [ReadBack(Staged(before, image, release)),
                                          Execution(Staged(before, image, release)), ReadBack(spec)]
                && authorized == if Scoped(before.runtime) && before.runtime.sha != release
                                 then start.authorized + {release} - {before.runtime.sha}
                                 else start.authorized + {release}
    {
      granted := false;
      ok := SetSpec(spec.(image := image, runtime := Runtime(RUNTIME_V1, release), checkOnly := true,
                          args := before.args + [CHECK]));
      if !ok { return; }
      var staged;
      ok, staged := ReadSpec();
      if !ok { return; }
      if staged.image != image { return false, granted; }
      granted := true;
      ok := TryPromote(image, release, before, start);
      if !ok { return; }
      if before.runtime.scope == RUNTIME_V1 && before.runtime.sha != release {
        ok := Withdraw(before.runtime.sha);
      }
    }

    /** The definition that can only check. */
    ghost function Staged(before: JobSpec, image: string, release: Sha): JobSpec {
      JobSpec(image, Runtime(RUNTIME_V1, release), true, before.args + [CHECK], before.other)
    }

    /** The grant, the check, and the definition made one that works. */
    method TryPromote(image: string, release: Sha, before: JobSpec, ghost start: JobState) returns (ok: bool)
      requires Fine(Now(), start, Promoted(before, image, release)) && AllPaused(start)
      requires spec == Staged(before, image, release) && before == start.spec
      modifies this`spec, this`authorized, this`trace, this`commands, this`failures, this`looks
      ensures old(trace) <= trace && FineSince(old(|trace|), start, Promoted(before, image, release))
      ensures Fine(Now(), start, Promoted(before, image, release))
      ensures old(looks) <= looks && Harmless(old(|looks|), image, Runtime(RUNTIME_V1, release))
      ensures commands > old(commands) && failures == old(failures) + if ok then 0 else 1
      ensures Smooth() && ExactCommit(release) ==> ok
      ensures ok ==>
                && spec == Promoted(before, image, release) && authorized == old(authorized) + {release}
                && looks == old(looks) + [Execution(Staged(before, image, release)), ReadBack(spec)]
    {
      ok := Authorize(release);
      if !ok { return; }
      ok := CheckRuntime();
      if !ok { return; }
      ok := SetSpec(spec.(checkOnly := false, args := before.args));
      if !ok { return; }
      var promoted;
      ok, promoted := ReadSpec();
      if !ok { return; }
      ok := Attempt(); // and saved
    }

    /** The definition from before, put in place and read again. */
    method SetBack(before: JobSpec, ghost start: JobState, ghost final: JobSpec) returns (ok: bool)
      requires Fine(Now(), start, final) && AllPaused(start) && before == start.spec
      requires before.Works() && Scoped(before.runtime) ==> before.runtime.sha in authorized
      modifies this`spec, this`trace, this`commands, this`failures, this`looks
      ensures old(trace) <= trace && FineSince(old(|trace|), start, final) && Fine(Now(), start, final)
      ensures looks == old(looks) || looks == old(looks) + [ReadBack(spec)]
      ensures failures == old(failures) + if ok then 0 else 1
      ensures ok ==> spec == before && looks == old(looks) + [ReadBack(before)]
    {
      ok := SetSpec(before);
      if !ok { return; }
      var seen;
      ok, seen := ReadSpec();
      ok := ok && seen == before;
    }

    /** The exception handler: the earlier definition is put back and read again before anything is resumed. */
    method RestoreJob(release: Sha, granted: bool, before: JobSpec, ghost start: JobState, ghost final: JobSpec)
      returns (ok: bool, restored: bool)
      requires Fine(Now(), start, final) && AllPaused(start) && before == start.spec && final.runtime.sha == release
      requires !granted ==> authorized == start.authorized
      modifies this`spec, this`authorized, this`trace, this`commands, this`failures, this`looks
      ensures old(trace) <= trace && FineSince(old(|trace|), start, final) && Fine(Now(), start, final)
      ensures looks == old(looks) || looks == old(looks) + [ReadBack(spec)]
      ensures failures == old(failures) + if ok then 0 else 1
      ensures ok ==> restored
      ensures restored ==>
                && spec == before && looks == old(looks) + [ReadBack(before)]
                && (Scoped(before.runtime) ==> before.runtime.sha in authorized)
      ensures restored && !ok ==> granted && before.runtime.sha != release
      ensures ok && release in authorized ==> release == before.runtime.sha || (!granted && release in start.authorized)
      ensures !granted ==> old(authorized) <= authorized
    {
      restored := false;
      if before.runtime.scope == RUNTIME_V1 {
        ok := Authorize(before.runtime.sha);
        if !ok { return; }
      }
      ok := SetBack(before, start, final);
      if !ok { return; }
      restored := true;
      if granted && before.runtime.sha != release {
        ok := Withdraw(release);
      }
    }

    /** What each way of ending means, for the state it started from, the number of commands that reported a failure and
        what was looked at: the failures are the one that ended the try block or the pausing, and any that went wrong on
        the way back. */
    ghost predicate JobContract(exit: JobExit, release: Sha, start: JobState, final: JobSpec, failed: int, since: nat)
      reads this`spec, this`enabled, this`authorized, this`looks
    {
      match exit
      case Done => failed == 0 && spec == final && enabled == start.enabled && final.runtime.sha in authorized
      case RolledBack =>
        && failed == 1 && spec == start.spec && enabled == start.enabled
        && |looks| > since && looks[|looks| - 1] == ReadBack(spec)
        && (Scoped(spec.runtime) ==> spec.runtime.sha in authorized)
        && (release in authorized ==> release == spec.runtime.sha || release in start.authorized)
      case Untouched(running) =>
        && spec == start.spec && authorized == start.authorized
        && (if running then failed <= 1 && enabled == start.enabled else failed == 2)
      case Unverified => failed == 2 && AllPaused(start)
      case Unrevoked =>
        && failed == 2 && spec == start.spec && AllPaused(start) && spec.runtime.sha != release
        && (Scoped(spec.runtime) ==> spec.runtime.sha in authorized)
      case Resuming => (failed == 1 && spec == final) || (failed == 2 && spec == start.spec)
    }

    /** The try statement, with the schedules paused: they are resumed when the release is done or undone. */
    method DeployOrRestore(image: string, release: Sha, before: JobSpec, active: set<Schedule>, ghost start: JobState)
      returns (exit: JobExit)
      requires Fine(Now(), start, Promoted(before, image, release)) && AllPaused(start)
      requires active == Running(start.enabled) && spec == before == start.spec && authorized == start.authorized
      modifies this`spec, this`enabled, this`authorized, this`trace, this`commands, this`failures, this`looks
      ensures old(trace) <= trace && FineSince(old(|trace|), start, Promoted(before, image, release))
      ensures JobContract(exit, release, start, Promoted(before, image, release), failures - old(failures),
                          old(|looks|))
      ensures !exit.Untouched? && (exit.Done? <==> failures == old(failures))
      ensures exit.Done? ==>
                && looks == old(looks) + [ReadBack(Staged(before, image, release)),
                                          Execution(Staged(before, image, release)), ReadBack(spec)]
                && authorized == if Scoped(before.runtime) && before.runtime.sha != release
                                 then start.authorized + {release} - {before.runtime.sha}
                                 else start.authorized + {release}
      ensures old(looks) <= looks && Harmless(old(|looks|), image, Runtime(RUNTIME_V1, release))
      ensures Smooth() && ExactCommit(release) && (Scoped(before.runtime) ==> ExactCommit(before.runtime.sha))
              ==> exit.Done?
    {
      hide Fine;
      ghost var final := Promoted(before, image, release);
      var ok, granted := TryDeploy(image, release, before, start);
      var deployed := ok;
      if !ok {
        var restored;
        ok, restored := RestoreJob(release, granted, before, start, final);
        if !ok { return if restored then Unrevoked else Unverified; }
      }
      ok := ResumeSchedules(active, start, final);
      if !ok { return Resuming; }
      return if deployed then Done else RolledBack;
    }

    /** deploy_job: in every state, whatever fails, a schedule that was running never meets a half-made definition. A
        deployment that is done runs the new image and commit with the earlier command, after a staged definition with
        that image was read back and executed and the final one was read. */
    method DeployJob(image: string, release: Sha) returns (exit: JobExit)
      requires spec.Works() && Scoped(spec.runtime) ==> spec.runtime.sha in authorized
      modifies this
      ensures old(trace) <= trace && FineSince(old(|trace|), old(Now()), Promoted(old(spec), image, release))
      ensures JobContract(exit, release, old(Now()), Promoted(old(spec), image, release), failures - old(failures),
                          old(|looks|) + 1)
      ensures exit.Done? <==> failures == old(failures) && Immutable(image) && Approved(old(spec).args)
      ensures exit.Done? ==>
                && spec == JobSpec(image, Runtime(RUNTIME_V1, release), false, old(spec).args, old(spec).other)
                && authorized == if Scoped(old(spec).runtime) && old(spec).runtime.sha != release
                                 then old(authorized) + {release} - {old(spec).runtime.sha}
                                 else old(authorized) + {release}
      ensures exit.Done? ==>
                var staged := JobSpec(image, Runtime(RUNTIME_V1, release), true, old(spec).args + [CHECK],
                                      old(spec).other);
                looks == old(looks) + [ReadBack(old(spec)), ReadBack(staged), Execution(staged), ReadBack(spec)]
      ensures Harmless(old(|looks|), image, Runtime(RUNTIME_V1, release))
      ensures Smooth() && Immutable(image) && Approved(old(spec).args) && ExactCommit(release)
              && (Scoped(old(spec).runtime) ==> ExactCommit(old(spec).runtime.sha))
              ==> exit.Done?
    {
      var named := NamesDigest(image);
      if !named { return Untouched(true); }
      var ok, before := ReadSpec();
      ghost var start, final := Now(), Promoted(before, image, release);
      StartsFine(start, final);
      hide Fine;
      if !ok { return Untouched(true); }
      ok := Attempt(); // its image is resolved and it is saved
      if !ok { return Untouched(true); }
      if !(|before.args| >= 2 && before.args[0] == "-m" && before.args[1] == WORKER && "--type" in before.args) {
        return Untouched(true);
      }
      var active, resumed;
      ok, active, resumed := PauseSchedules(start, final);
      if !ok { return Untouched(resumed); }
      assert AllPaused(start);
      exit := DeployOrRestore(image, release, before, active, start);
    }

    // rollback_job

    /** The try block: the target is checked with the check forced on, and then put in place. */
    method TryRollback(target: JobSpec, ghost start: JobState) returns (ok: bool)
      requires Fine(Now(), start, target) && AllPaused(start) && Scoped(target.runtime)
      requires authorized == start.authorized
      modifies this`spec, this`authorized, this`trace, this`commands, this`failures, this`looks
      ensures old(trace) <= trace && FineSince(old(|trace|), start, target) && Fine(Now(), start, target)
      ensures start.authorized <= authorized
      ensures old(looks) <= looks && Harmless(old(|looks|), target.image, target.runtime)
      ensures failures == old(failures) + if ok then 0 else 1
      ensures Smooth() && ExactCommit(target.runtime.sha) ==> ok
      ensures ok ==>
                && spec == target && target.runtime.sha in authorized
                && looks == old(looks) + [Execution(target.(checkOnly := true, args := target.args + [CHECK])),
                                          ReadBack(target)]
    {
      ok := Authorize(target.runtime.sha);
      if !ok { return; }
      ok := SetSpec(target.(checkOnly := true, args := target.args + [CHECK]));
      if !ok { return; }
      ok := CheckRuntime();
      if !ok { return; }
      ok := SetSpec(target);
      if !ok { return; }
      var seen;
      ok, seen := ReadSpec();
      ok := ok && seen == target;
    }

    /** rollback_job: the same promise, with the target in the place of the promoted definition. */
    method RollbackJob(target: JobSpec) returns (exit: JobExit)
      requires spec.Works() && Scoped(spec.runtime) ==> spec.runtime.sha in authorized
      modifies this
      ensures old(trace) <= trace && FineSince(old(|trace|), old(Now()), target)
      ensures old(authorized) <= authorized
      ensures Harmless(old(|looks|), target.image, target.runtime)
      ensures exit.Done? <==> failures == old(failures) && Scoped(target.runtime)
      ensures exit.Done? ==>
                && spec == target && enabled == old(enabled) && target.runtime.sha in authorized
                && looks == old(looks) + [ReadBack(old(spec)),
                                          Execution(target.(checkOnly := true, args := target.args + [CHECK])),
                                          ReadBack(target)]
      ensures exit.RolledBack? ==>
                && failures == old(failures) + 1 && spec == old(spec) && enabled == old(enabled)
                && |looks| > old(|looks|) + 1 && looks[|looks| - 1] == ReadBack(spec)
      ensures exit.Untouched? ==> spec == old(spec) && authorized == old(authorized)
      ensures exit.Untouched? ==>
                if exit.running then failures <= old(failures) + 1 && enabled == old(enabled)
                else failures == old(failures) + 2
      ensures exit.Unverified? ==> failures == old(failures) + 2 && AllPaused(old(Now()))
      ensures !exit.Unrevoked?
      ensures exit.Resuming? ==> (failures == old(failures) + 1 && spec == target)
                                 || (failures == old(failures) + 2 && spec == old(spec))
      ensures Smooth() && Scoped(target.runtime) && ExactCommit(target.runtime.sha) ==> exit.Done?
    {
      var ok, before := ReadSpec();
      ghost var start := Now();
      StartsFine(start, target);
      hide Fine;
      if !ok { return Untouched(true); }
      ok := Attempt(); // the target is fetched and its fingerprint checked
      if !ok || target.runtime.scope != RUNTIME_V1 { return Untouched(true); }
      var active, resumed;
      ok, active, resumed := PauseSchedules(start, target);
      if !ok { return Untouched(resumed); }
      assert AllPaused(start);
      ok := TryRollback(target, start);
      var done := ok;
      if !ok {
        ok := SetBack(before, start, target);
        if !ok { return Unverified; }
      }
      ok := ResumeSchedules(active, start, target);
      if !ok { return Resuming; }
      return if done then Done else RolledBack;
    }
  }
}
