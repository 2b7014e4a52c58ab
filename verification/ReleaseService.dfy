/** The service releases of docker/release-executor/release_executor.py. A script, which may be any, says of each
    command whether it fails, and if so before or after it took effect; a ghost trace records the cloud after each of
    them, and the results are about the whole trace. The commands that reported a failure are counted, so that the
    contracts can say that a release gives up only when a command did. */
module ReleaseService {
  import opened Faults

  type Sha = string
  type Revision = string

  /** What a revision says about itself; a missing variable reads as the empty string. */
  datatype Runtime = Runtime(scope: string, sha: Sha)

  const RUNTIME_V1 := "runtime-v1"

  datatype Snapshot = Snapshot(traffic: map<Revision, nat>, authorized: set<Sha>)

  /** How a release ends. An ordinary exception remembers whether traffic was already being moved, and to what. */
  datatype Exit = Returned(candidate: Revision) | AutomaticRollback | Raised(promoted: bool, candidate: Revision)

  /** A release prepared earlier: its candidate and the production it was prepared against. */
  datatype Continuation = Continuation(candidate: Revision, previous: map<Revision, nat>,
                                       runtime: map<Revision, Runtime>)

  /** What a release looks at. A readiness probe asks a revision through its own address, or as the active service. */
  datatype Check =
    | Web
    | Facts
    | Readiness(revision: Revision, active: bool)
    | CandidateSmoke
    | Manifest
    | Hooks
    | Boundary
    | Smoke

  /** A check that passed, and the cloud while it did. */
  datatype Passed = Passed(check: Check, state: Snapshot)

  predicate HexDigit(c: char) { '0' <= c <= '9' || 'a' <= c <= 'f' }

  /** A full commit: forty hexadecimal digits. */
  ghost predicate ExactCommit(sha: Sha) { |sha| == 40 && forall c | c in sha :: c in "0123456789abcdef" }

  lemma HexDigits(c: char)
    ensures HexDigit(c) <==> c in "0123456789abcdef"
  {
    var digits := "0123456789abcdef";
    if '0' <= c <= '9' { assert digits[c as int - '0' as int] == c; }
    if 'a' <= c <= 'f' { assert digits[10 + (c as int - 'a' as int)] == c; }
  }

  /** re.fullmatch(r"[0-9a-f]{40}", sha). */
  method FullMatch(sha: Sha) returns (ok: bool)
    ensures ok == ExactCommit(sha)
  {
    if |sha| != 40 { return false; }
    for i := 0 to |sha|
      invariant forall k | 0 <= k < i :: sha[k] in "0123456789abcdef"
    {
      HexDigits(sha[i]);
      if !HexDigit(sha[i]) { return false; }
    }
    return true;
  }

  ghost function Everything(r: Revision): map<Revision, nat> { map[r := 100] }

  ghost predicate Scoped(row: Runtime) { row.scope == RUNTIME_V1 }

  /** The scoped revisions carry full commits. */
  ghost predicate Exact(rows: map<Revision, Runtime>) {
    forall r | r in rows && Scoped(rows[r]) :: ExactCommit(rows[r].sha)
  }

  ghost function Shas(rows: map<Revision, Runtime>): set<Sha> { set r | r in rows :: rows[r].sha }

  /** The commits the scoped revisions need. */
  ghost function Needed(rows: map<Revision, Runtime>): set<Sha> { set r | r in rows && Scoped(rows[r]) :: rows[r].sha }

  class Cloud {
    const runtimes: Revision -> Runtime
    const script: seq<Fault>
    var traffic: map<Revision, nat>
    var authorized: set<Sha>
    /** The commands sent so far, and how many of them reported a failure. */
    var commands: nat
    var failures: nat
    ghost var trace: seq<Snapshot>
    ghost var passed: seq<Passed>

    ghost function Now(): Snapshot
      reads this`traffic, this`authorized
    {
      Snapshot(traffic, authorized)
    }

    /** Every revision that receives traffic under the runtime-v1 protocol runs an authorized commit. */
    ghost predicate Safe(s: Snapshot)
    {
      forall r | r in s.traffic && Scoped(runtimes(r)) :: runtimes(r).sha in s.authorized
    }

    /** One state of a release: safe when grants are in play, serving either what it started with or the candidate,
        and authorizing nothing beyond `most`. */
    ghost predicate Fine(s: Snapshot, grants: bool, previous: map<Revision, nat>, candidate: Revision, most: set<Sha>)
    {
      && (grants ==> Safe(s))
      && (s.traffic == previous || s.traffic == Everything(candidate))
      && s.authorized <= most
    }

    /** Every state the cloud went through since its trace had `n` entries was fine. */
    ghost predicate FineSince(n: nat, grants: bool, previous: map<Revision, nat>, candidate: Revision, most: set<Sha>)
      reads this`trace
    {
      n <= |trace| && forall i | n <= i < |trace| :: Fine(trace[i], grants, previous, candidate, most)
    }

    ghost predicate StillSince(n: nat, t: map<Revision, nat>)
      reads this`trace
    {
      n <= |trace| && forall i | n <= i < |trace| :: trace[i].traffic == t
    }

    /** These rows are what the revisions of this traffic say. */
    ghost predicate Describes(rows: map<Revision, Runtime>, t: map<Revision, nat>)
    {
      rows.Keys == t.Keys && forall r | r in rows :: rows[r] == runtimes(r)
    }

    constructor (runtimes: Revision -> Runtime, script: seq<Fault>, traffic: map<Revision, nat>, authorized: set<Sha>)
      ensures this.runtimes == runtimes && this.script == script
      ensures Now() == Snapshot(traffic, authorized) && trace == [Now()] && passed == []
      ensures commands == 0 && failures == 0
    {
      this.runtimes, this.script, this.traffic, this.authorized := runtimes, script, traffic, authorized;
      this.commands, this.failures, this.trace, this.passed := 0, 0, [Snapshot(traffic, authorized)], [];
    }

    // Commands

    /** Nothing in the script fails. */
    ghost predicate Smooth() { forall f | f in script :: f.Succeeds? }

    /** How the next command falls out: one that is not possible fails. */
    method Next(possible: bool) returns (fault: Fault)
      modifies this`commands, this`failures
      ensures commands == old(commands) + 1 && failures == old(failures) + if fault.Succeeds? then 0 else 1
      ensures fault == if possible then Scripted(script, old(commands)) else FailsBefore
      ensures possible && Smooth() ==> fault.Succeeds?
    {
      fault := if possible then Scripted(script, commands) else FailsBefore;
      commands := commands + 1;
      if fault != Succeeds { failures := failures + 1; }
    }

    ghost method Record()
      modifies this`trace
      ensures trace == old(trace) + [Now()]
    {
      trace := trace + [Now()];
    }

    /** runtime_grant("authorize", sha): refused without a full commit; otherwise a bounded job that may fail on
        either side of its commit. */
    method Authorize(sha: Sha) returns (ok: bool)
      modifies this`authorized, this`trace, this`commands, this`failures
      ensures authorized == old(authorized) || authorized == old(authorized) + {sha}
      ensures ok ==> sha in authorized
      ensures ok <==> failures == old(failures)
      ensures !ok ==> failures == old(failures) + 1
      ensures Smooth() && ExactCommit(sha) ==> ok
      ensures trace == old(trace) + [Now()]
    {
      var full := FullMatch(sha);
      var fault := Next(full);
      if fault != FailsBefore { authorized := authorized + {sha}; }
      Record();
      ok := fault == Succeeds;
    }

    /** runtime_grant("retire" or "revoke", sha). */
    method Withdraw(sha: Sha) returns (ok: bool)
      modifies this`authorized, this`trace, this`commands, this`failures
      ensures authorized == old(authorized) || authorized == old(authorized) - {sha}
      ensures ok ==> sha !in authorized
      ensures ok <==> failures == old(failures)
      ensures !ok ==> failures == old(failures) + 1
      ensures Smooth() && ExactCommit(sha) ==> ok
      ensures trace == old(trace) + [Now()]
    {
      var full := FullMatch(sha);
      var fault := Next(full);
      if fault != FailsBefore { authorized := authorized - {sha}; }
      Record();
      ok := fault == Succeeds;
    }

    /** _set_traffic. */
    method SetTraffic(t: map<Revision, nat>) returns (ok: bool)
      modifies this`traffic, this`trace, this`commands, this`failures
      ensures traffic == old(traffic) || traffic == t
      ensures ok ==> traffic == t
      ensures ok <==> failures == old(failures)
      ensures !ok ==> failures == old(failures) + 1
      ensures Smooth() ==> ok
      ensures trace == old(trace) + [Now()]
    {
      var fault := Next(true);
      if fault != FailsBefore { traffic := t; }
      Record();
      ok := fault == Succeeds;
    }

    /** _traffic: a read that may fail. */
    method ReadTraffic() returns (ok: bool, t: map<Revision, nat>)
      modifies this`commands, this`failures
      ensures ok ==> t == traffic
      ensures ok <==> failures == old(failures)
      ensures !ok ==> failures == old(failures) + 1
      ensures Smooth() ==> ok
      ensures commands == old(commands) + 1
    {
      var fault := Next(true);
      ok, t := fault == Succeeds, traffic;
    }

    /** Any other check or command, none of which touches the modelled state. */
    method Attempt(check: Check) returns (ok: bool)
      modifies this`commands, this`failures, this`passed
      ensures ok <==> failures == old(failures)
      ensures !ok ==> failures == old(failures) + 1
      ensures Smooth() ==> ok
      ensures commands == old(commands) + 1
      ensures passed == if ok then old(passed) + [Passed(check, Now())] else old(passed)
    {
      var fault := Next(true);
      ok := fault == Succeeds;
      if ok { passed := passed + [Passed(check, Now())]; }
    }

    /** runtime_ready: succeeds only when the revision answers with the protocol and the commit expected. */
    method Ready(r: Revision, sha: Sha, active: bool) returns (ok: bool)
      modifies this`commands, this`failures, this`passed
      ensures ok ==> runtimes(r) == Runtime(RUNTIME_V1, sha)
      ensures ok <==> failures == old(failures)
      ensures !ok ==> failures == old(failures) + 1
      ensures Smooth() && runtimes(r) == Runtime(RUNTIME_V1, sha) ==> ok
      ensures passed == if ok then old(passed) + [Passed(Readiness(r, active), Now())] else old(passed)
    {
      var fault := Next(runtimes(r) == Runtime(RUNTIME_V1, sha));
      ok := fault == Succeeds;
      if ok { passed := passed + [Passed(Readiness(r, active), Now())]; }
    }

    /** One revision_runtime. */
    method Describe() returns (ok: bool)
      modifies this`commands, this`failures
      ensures ok <==> failures == old(failures)
      ensures !ok ==> failures == old(failures) + 1
      ensures Smooth() ==> ok
    {
      var fault := Next(true);
      ok := fault == Succeeds;
    }

    /** revision_runtime of every revision of a snapshot. */
    method ReadRuntimes(t: map<Revision, nat>) returns (ok: bool, rows: map<Revision, Runtime>)
      modifies this`commands, this`failures
      ensures ok ==> Describes(rows, t)
      ensures ok <==> failures == old(failures)
      ensures !ok ==> failures == old(failures) + 1
      ensures Smooth() ==> ok
    {
      ok, rows := true, map[];
      var todo := t.Keys;
      while todo != {}
        invariant todo <= t.Keys && rows.Keys == t.Keys - todo
        invariant forall r | r in rows :: rows[r] == runtimes(r)
        invariant ok && failures == old(failures)
        decreases todo
      {
        var r :| r in todo;
        ok := Describe();
        if !ok { return; }
        rows, todo := rows[r := runtimes(r)], todo - {r};
      }
    }

    // The release

    /** Authorizing again everything the previous revisions need. */
    method AuthorizeAll(rows: map<Revision, Runtime>, ghost previous: map<Revision, nat>, ghost candidate: Revision,
                        ghost most: set<Sha>)
      returns (ok: bool)
      requires Fine(Now(), true, previous, candidate, most) && Needed(rows) <= most
      modifies this`authorized, this`trace, this`commands, this`failures
      ensures ok <==> failures == old(failures)
      ensures !ok ==> failures == old(failures) + 1
      ensures Smooth() && Exact(rows) ==> ok
      ensures old(authorized) <= authorized
      ensures ok ==> Needed(rows) <= authorized
      ensures old(trace) <= trace && FineSince(old(|trace|), true, previous, candidate, most)
      ensures Fine(Now(), true, previous, candidate, most)
    {
      ok := true;
      var todo := set r | r in rows && rows[r].scope == RUNTIME_V1;
      while todo != {}
        invariant ok && failures == old(failures)
        invariant todo <= rows.Keys && forall r | r in todo :: Scoped(rows[r])
        invariant forall r | r in rows && Scoped(rows[r]) && r !in todo :: rows[r].sha in authorized
        invariant old(authorized) <= authorized
        invariant old(trace) <= trace && FineSince(old(|trace|), true, previous, candidate, most)
        invariant Fine(Now(), true, previous, candidate, most)
        decreases todo
      {
        var r :| r in todo;
        assert rows[r].sha in Needed(rows);
        ok := Authorize(rows[r].sha);
        if !ok { return; }
        todo := todo - {r};
      }
    }

    /** Retiring what the previous revisions needed, once the candidate serves. */
    method RetireAll(rows: map<Revision, Runtime>, release: Sha, ghost previous: map<Revision, nat>,
                     candidate: Revision, ghost most: set<Sha>)
      returns (ok: bool)
      requires traffic == Everything(candidate) && runtimes(candidate).sha == release
      requires release in authorized && authorized <= most
      modifies this`authorized, this`trace, this`commands, this`failures
      ensures ok <==> failures == old(failures)
      ensures !ok ==> failures == old(failures) + 1
      ensures Smooth() && Exact(rows) ==> ok
      ensures ok ==> authorized == old(authorized) - (Needed(rows) - {release})
      ensures old(authorized) - Needed(rows) <= authorized
      ensures old(trace) <= trace && FineSince(old(|trace|), true, previous, candidate, most)
      ensures Fine(Now(), true, previous, candidate, most)
    {
      ok := true;
      var todo := set r | r in rows && rows[r].scope == RUNTIME_V1 && rows[r].sha != release;
      ghost var all := todo;
      while todo != {}
        invariant ok && failures == old(failures)
        invariant todo <= all && forall r | r in all && r !in todo :: rows[r].sha !in authorized
        invariant old(authorized) - (Needed(rows) - {release}) <= authorized <= old(authorized)
        invariant old(trace) <= trace && FineSince(old(|trace|), true, previous, candidate, most)
        invariant Fine(Now(), true, previous, candidate, most)
        decreases todo
      {
        var r :| r in todo;
        ok := Withdraw(rows[r].sha);
        if !ok { return; }
        todo := todo - {r};
      }
    }

    /** The grant of an independent runtime, and the candidate answering as active. */
    method TryGrant(release: Sha, candidate: Revision, ghost previous: map<Revision, nat>) returns (ok: bool)
      requires traffic == previous && Safe(Now())
      modifies this`authorized, this`trace, this`commands, this`failures, this`passed
      ensures old(authorized) <= authorized <= old(authorized) + {release}
      ensures ok ==> authorized == old(authorized) + {release}
      ensures ok ==> passed == old(passed) + [Passed(Readiness(candidate, true), Now())]
      ensures ok <==> failures == old(failures)
      ensures !ok ==> failures == old(failures) + 1
      ensures Smooth() && ExactCommit(release) && runtimes(candidate) == Runtime(RUNTIME_V1, release) ==> ok
      ensures old(trace) <= trace && FineSince(old(|trace|), true, previous, candidate, old(authorized) + {release})
      ensures StillSince(old(|trace|), previous) && Safe(Now())
    {
      ok := Authorize(release);
      if !ok { return; }
      assert authorized == old(authorized) + {release};
      ok := Ready(candidate, release, true);
    }

    /** What has passed, in order, before the traffic moves, while these commits were authorized. */
    ghost function Beforehand(independent: bool, staged: bool, candidate: Revision, s: Snapshot): seq<Passed> {
      (if independent then [Passed(Readiness(candidate, true), s)] else [])
      + (if staged then [Passed(Hooks, s)] else [])
    }

    /** And once the candidate has all of it. */
    ghost function Afterwards(independent: bool, staged: bool, candidate: Revision, grants: set<Sha>): seq<Passed> {
      var s := Snapshot(Everything(candidate), grants);
      (if staged then [Passed(Boundary, s)] else [])
      + [Passed(if independent then Readiness(candidate, true) else Smoke, s)]
    }

    /** The checks of a release that returns: with its commit and those of the revisions before it authorized, the
        candidate answers before it gets traffic, and again when it has all of it. */
    ghost function Validation(independent: bool, staged: bool, release: Sha, candidate: Revision, start: Snapshot)
      : seq<Passed>
    {
      var grants := start.authorized + if independent then {release} else {};
      Beforehand(independent, staged, candidate, Snapshot(start.traffic, grants))
      + Afterwards(independent, staged, candidate, grants)
    }

    /** The try block up to the promotion. */
    method TryStart(independent: bool, staged: bool, release: Sha, candidate: Revision,
                    ghost previous: map<Revision, nat>)
      returns (ok: bool)
      requires traffic == previous
      requires independent ==> Safe(Now()) && runtimes(candidate) == Runtime(RUNTIME_V1, release)
      modifies this`authorized, this`trace, this`commands, this`failures, this`passed
      ensures old(trace) <= trace
      ensures FineSince(old(|trace|), independent, previous, candidate, old(authorized) + {release})
      ensures StillSince(old(|trace|), previous) && (independent ==> Safe(Now()))
      ensures old(authorized) <= authorized <= old(authorized) + {release}
      ensures ok && independent ==> release in authorized
      ensures ok ==> authorized == old(authorized) + if independent then {release} else {}
      ensures ok ==> passed == old(passed) + Beforehand(independent, staged, candidate, Now())
      ensures ok <==> failures == old(failures)
      ensures !ok ==> failures == old(failures) + 1
      ensures Smooth() && (independent ==> ExactCommit(release)) ==> ok
      ensures !independent ==> authorized == old(authorized)
    {
      ok := true;
      if independent {
        ok := TryGrant(release, candidate, previous);
        if !ok { return; }
      }
      if staged { ok := Attempt(Hooks); } // pre_promote_hooks
    }

    /** The try block from the promotion on. */
    method TryServe(independent: bool, staged: bool, release: Sha, candidate: Revision,
                    ghost previous: map<Revision, nat>, rows: map<Revision, Runtime>, ghost most: set<Sha>)
      returns (ok: bool)
      requires Fine(Now(), independent, previous, candidate, most)
      requires independent ==> runtimes(candidate) == Runtime(RUNTIME_V1, release) && release in authorized
      modifies this`traffic, this`authorized, this`trace, this`commands, this`failures, this`passed
      ensures old(trace) <= trace && FineSince(old(|trace|), independent, previous, candidate, most)
      ensures Fine(Now(), independent, previous, candidate, most)
      ensures ok ==> traffic == Everything(candidate)
      ensures ok ==> passed == old(passed) + Afterwards(independent, staged, candidate, old(authorized))
      ensures ok <==> failures == old(failures)
      ensures !ok ==> failures == old(failures) + 1
      ensures Smooth() && (independent ==> Exact(rows)) ==> ok
      ensures ok && independent ==> authorized == old(authorized) - (Needed(rows) - {release})
      ensures old(authorized) - Needed(rows) <= authorized
      ensures !independent ==> authorized == old(authorized)
    {
      hide Exact, Needed;
      ok := SetTraffic(map[candidate := 100]);
      if !ok { return; }
      if staged {
        ok := Attempt(Boundary); // the service URL and its private boundary
        if !ok { return; }
      }
      ok := TrySettle(independent, release, candidate, previous, rows, most);
    }

    /** The production answers, and only then are the commits before it retired. */
    method TrySettle(independent: bool, release: Sha, candidate: Revision, ghost previous: map<Revision, nat>,
                     rows: map<Revision, Runtime>, ghost most: set<Sha>)
      returns (ok: bool)
      requires Fine(Now(), independent, previous, candidate, most) && traffic == Everything(candidate)
      requires independent ==> runtimes(candidate) == Runtime(RUNTIME_V1, release) && release in authorized
      modifies this`authorized, this`trace, this`commands, this`failures, this`passed
      ensures old(trace) <= trace && FineSince(old(|trace|), independent, previous, candidate, most)
      ensures Fine(Now(), independent, previous, candidate, most)
      ensures ok ==> passed == old(passed) + [Passed(if independent then Readiness(candidate, true) else Smoke,
                                                     Snapshot(traffic, old(authorized)))]
      ensures ok <==> failures == old(failures)
      ensures !ok ==> failures == old(failures) + 1
      ensures Smooth() && (independent ==> Exact(rows)) ==> ok
      ensures ok && independent ==> authorized == old(authorized) - (Needed(rows) - {release})
      ensures old(authorized) - Needed(rows) <= authorized
      ensures !independent ==> authorized == old(authorized)
    {
      hide Exact, Needed;
      if independent {
        ok := Ready(candidate, release, true);
        if !ok { return; }
        ok := RetireAll(rows, release, previous, candidate, most);
      } else {
        ok := Attempt(Smoke); // smoke test and post_promote_hooks
      }
    }

    /** The try block of promote_candidate, and, without the hooks and the boundary, that of deploy_runtime. */
    method TryRelease(independent: bool, staged: bool, release: Sha, candidate: Revision, previous: map<Revision, nat>,
                      rows: map<Revision, Runtime>)
      returns (ok: bool, promoted: bool)
      requires traffic == previous && Describes(rows, previous)
      requires independent ==> Safe(Now()) && runtimes(candidate) == Runtime(RUNTIME_V1, release)
      modifies this`traffic, this`authorized, this`trace, this`commands, this`failures, this`passed
      ensures old(trace) <= trace
      ensures FineSince(old(|trace|), independent, previous, candidate, old(authorized) + {release})
      ensures Fine(Now(), independent, previous, candidate, old(authorized) + {release})
      ensures !promoted ==> !ok && traffic == previous && StillSince(old(|trace|), previous)
      ensures ok ==> traffic == Everything(candidate)
      ensures ok ==> passed == old(passed) + Validation(independent, staged, release, candidate, old(Now()))
      ensures ok <==> failures == old(failures)
      ensures !ok ==> failures == old(failures) + 1
      ensures Smooth() && (independent ==> ExactCommit(release) && Exact(rows)) ==> ok
      ensures ok && independent ==>
                release in authorized && authorized == old(authorized) + {release} - (Needed(rows) - {release})
      ensures old(authorized) - Needed(rows) <= authorized
      ensures !independent ==> authorized == old(authorized)
    {
      hide Describes, Exact, Needed, Beforehand, Afterwards;
      promoted := false;
      ok := TryStart(independent, staged, release, candidate, previous);
      if !ok { return; }
      promoted := true; // a time-out can come after the traffic moved
      ok := TryServe(independent, staged, release, candidate, previous, rows, old(authorized) + {release});
    }

    /** The exception handler shared by promote_candidate and deploy_runtime, up to its final raise. It fails only when
        one of its own commands does. */
    method Restore(independent: bool, granted: bool, promoted: bool, release: Sha, ghost candidate: Revision,
                   previous: map<Revision, nat>, rows: map<Revision, Runtime>, ghost most: set<Sha>)
      returns (ok: bool)
      requires Describes(rows, previous) && Fine(Now(), independent, previous, candidate, most)
      requires independent ==> Needed(rows) <= most
      requires !promoted ==> traffic == previous
      requires granted ==> independent
      modifies this`traffic, this`authorized, this`trace, this`commands, this`failures
      ensures old(trace) <= trace && FineSince(old(|trace|), independent, previous, candidate, most)
      ensures Fine(Now(), independent, previous, candidate, most)
      ensures !promoted ==> traffic == previous && StillSince(old(|trace|), previous)
      ensures ok ==> traffic == previous
      ensures ok <==> failures == old(failures)
      ensures !ok ==> failures == old(failures) + 1
      ensures ok && granted && release !in Shas(rows) ==> release !in authorized
      ensures ok && independent && promoted ==> Needed(rows) <= authorized
      ensures old(authorized) - {release} <= authorized
      ensures !independent ==> authorized == old(authorized)
    {
      ok := true;
      if promoted {
        ok := RestoreTraffic(independent, candidate, previous, rows, most);
        if !ok { return; }
      }
      assert forall r | r in rows :: rows[r].sha in Shas(rows);
      if granted && release !in set r | r in rows :: rows[r].sha {
        ok := Withdraw(release);
      }
    }

    method RestoreTraffic(independent: bool, ghost candidate: Revision, previous: map<Revision, nat>,
                          rows: map<Revision, Runtime>, ghost most: set<Sha>)
      returns (ok: bool)
      requires Describes(rows, previous) && Fine(Now(), independent, previous, candidate, most)
      requires independent ==> Needed(rows) <= most
      modifies this`traffic, this`authorized, this`trace, this`commands, this`failures
      ensures old(trace) <= trace && FineSince(old(|trace|), independent, previous, candidate, most)
      ensures Fine(Now(), independent, previous, candidate, most)
      ensures ok ==> traffic == previous
      ensures ok <==> failures == old(failures)
      ensures !ok ==> failures == old(failures) + 1
      ensures ok && independent ==> Needed(rows) <= authorized
      ensures old(authorized) <= authorized
      ensures !independent ==> authorized == old(authorized)
    {
      if independent {
        ok := AuthorizeAll(rows, previous, candidate, most);
        if !ok { return; }
        assert forall r | r in rows && Scoped(rows[r]) :: rows[r].sha in Needed(rows);
      }
      ok := SetTraffic(previous);
      if !ok { return; }
      var current;
      ok, current := ReadTraffic();
      ok := ok && current == previous;
    }

    /** What each way of ending a release means, for the production it started from and the failures it met. */
    ghost predicate ExitContract(exit: Exit, grants: bool, release: Sha, start: Snapshot, since: nat, failed: int)
      reads this
    {
      OthersKept(start, release)
      && match exit
      case Returned(candidate) =>
        && traffic == Everything(candidate)
        && (grants ==> runtimes(candidate) == Runtime(RUNTIME_V1, release) && release in authorized
                       && RetiredFrom(start, release) && authorized <= start.authorized + {release})
      case AutomaticRollback =>
        && traffic == start.traffic
        && (grants ==> StillAuthorized(start)
                       && (release in authorized ==> exists r :: r in start.traffic && runtimes(r).sha == release))
      case Raised(promoted, candidate) =>
        && (traffic == start.traffic || (promoted && traffic == Everything(candidate)))
        && (!promoted ==> StillSince(since, start.traffic))
        && (!promoted && grants && failed == 1 && release in authorized ==>
              release in start.authorized || exists r :: r in start.traffic && runtimes(r).sha == release)
    }

    /** No other grant is withdrawn: only those of the release itself and of the revisions before it may be. */
    ghost predicate OthersKept(start: Snapshot, release: Sha)
      reads this`authorized
    {
      forall sha | sha in start.authorized && sha !in authorized ::
        sha == release || exists r :: r in start.traffic && Scoped(runtimes(r)) && runtimes(r).sha == sha
    }

    ghost predicate RetiredFrom(start: Snapshot, release: Sha)
      reads this`authorized
    {
      forall r | r in start.traffic && Scoped(runtimes(r)) && runtimes(r).sha != release ::
        runtimes(r).sha !in authorized
    }

    ghost predicate StillAuthorized(start: Snapshot)
      reads this`authorized
    {
      forall r | r in start.traffic && Scoped(runtimes(r)) :: runtimes(r).sha in authorized
    }

    /** How many commands reported a failure on each way of ending: none, the one that ended the try block, or that one
        and another in the handler. */
    ghost predicate Counted(exit: Exit, failed: int) {
      match exit
      case Returned(_) => failed == 0
      case AutomaticRollback => failed == 1
      case Raised(promoted, _) => if promoted then failed == 2 else 1 <= failed <= 2
    }

    /** deploy_runtime: in every state along the way, whatever fails, the revisions that serve are authorized. */
    method DeployRuntime(release: Sha) returns (exit: Exit, ghost candidate: Revision)
      requires Safe(Now())
      modifies this`traffic, this`authorized, this`trace, this`commands, this`failures, this`passed
      ensures old(trace) <= trace && FineSince(old(|trace|), true, old(traffic), candidate, old(authorized) + {release})
      ensures ExitContract(exit, true, release, old(Now()), old(|trace|), failures - old(failures))
      ensures Counted(exit, failures - old(failures))
      ensures exit.Returned? ==>
                && exit.candidate == candidate
                && passed == old(passed) + [Passed(Web, old(Now())), Passed(Readiness(candidate, false), old(Now()))]
                             + Validation(true, false, release, candidate, old(Now()))
      ensures Smooth() && ExactCommit(release) && runtimes(candidate) == Runtime(RUNTIME_V1, release)
              && (forall r | r in old(traffic) && Scoped(runtimes(r)) :: ExactCommit(runtimes(r).sha))
              ==> exit.Returned?
    {
      hide Validation;
      candidate := "";
      var ok, previous := ReadTraffic();
      if !ok { return Raised(false, ""), ""; }
      var rows;
      ok, rows := ReadRuntimes(previous);
      if !ok { return Raised(false, ""), ""; }
      ok := Attempt(Web);
      if !ok { return Raised(false, ""), ""; }
      var revision: Revision := *; // _deploy_candidate takes no traffic
      ok := Describe();
      if !ok { return Raised(false, revision), revision; }
      ok := Ready(revision, release, false);
      if !ok { return Raised(false, revision), revision; }
      exit := ReleaseOrRestore(true, false, release, revision, previous, rows);
      candidate := revision;
    }

    /** Someone else may set the traffic. */
    method Drift()
      modifies this`traffic
    {
      traffic := *;
    }

    /** stage_candidate, while others may change the traffic at any time: it issues no command that is recorded, and the
        continuation describes the production that served when it was looked at last. */
    method StageCandidate(independent: bool, release: Sha) returns (ok: bool, continuation: Continuation)
      modifies this`traffic, this`commands, this`failures, this`passed
      ensures ok ==> |passed| == old(|passed|) + 3 && passed[old(|passed|)].check == Web
                     && passed[old(|passed|) + 1].check == Facts
                     && passed[old(|passed|) + 2].check
                        == if independent then Readiness(continuation.candidate, false) else CandidateSmoke
      ensures ok ==> failures == old(failures)
      ensures ok ==> continuation.previous == traffic && Describes(continuation.runtime, traffic)
      ensures ok && independent ==> runtimes(continuation.candidate) == Runtime(RUNTIME_V1, release)
    {
      var previous, rows, again;
      continuation := Continuation("", map[], map[]);
      ok, previous := ReadTraffic();
      if !ok { return; }
      Drift();
      ok, rows := ReadRuntimes(previous);
      if !ok { return; }
      ok := Attempt(Web); // the paired web service and the private boundary
      if !ok { return; }
      var candidate: Revision := *; // _deploy_candidate takes no traffic
      ok := Attempt(Facts); // its private boundary, its image and its configuration
      if !ok { return; }
      if independent { ok := Ready(candidate, release, false); } else { ok := Attempt(CandidateSmoke); }
      if !ok { return; }
      Drift();
      ok, again := ReadTraffic();
      if !ok || again != previous { return false, continuation; }
      continuation := Continuation(candidate, previous, rows);
    }

    /** The commits are full ones, and the candidate is what it says. */
    ghost predicate Grantable(release: Sha, continuation: Continuation)
    {
      && ExactCommit(release) && Exact(continuation.runtime)
      && runtimes(continuation.candidate) == Runtime(RUNTIME_V1, release)
    }

    /** promote_candidate: the production must still be the one the candidate was prepared against. */
    method PromoteCandidate(independent: bool, release: Sha, continuation: Continuation) returns (exit: Exit)
      requires independent ==> Safe(Now())
      modifies this`traffic, this`authorized, this`trace, this`commands, this`failures, this`passed
      ensures old(trace) <= trace
      ensures FineSince(old(|trace|), independent, old(traffic), continuation.candidate, old(authorized) + {release})
      ensures ExitContract(exit, independent, release, old(Now()), old(|trace|), failures - old(failures))
      ensures exit.Returned? ==> exit.candidate == continuation.candidate
      ensures (old(traffic) == continuation.previous && Describes(continuation.runtime, old(traffic)))
              || (trace == old(trace) && exit == Raised(false, continuation.candidate))
      ensures old(traffic) == continuation.previous && Describes(continuation.runtime, old(traffic)) ==>
                Counted(exit, failures - old(failures))
      ensures old(traffic) == continuation.previous && Describes(continuation.runtime, old(traffic)) ==>
                Smooth() && (independent ==> Grantable(release, continuation)) ==> exit.Returned?
      ensures exit.Returned? ==>
                var probe := if independent then Readiness(continuation.candidate, false) else CandidateSmoke;
                passed == old(passed) + [Passed(Facts, old(Now())), Passed(Web, old(Now())), Passed(probe, old(Now()))]
                          + Validation(independent, true, release, continuation.candidate, old(Now()))
      ensures !independent ==> authorized == old(authorized)
    {
      hide Validation, Counted, Describes, Grantable;
      var candidate := continuation.candidate;
      ExactlyThis(independent, release, continuation);
      var ok, previous, rows := Recheck(independent, release, continuation);
      if !ok {
        exit := Raised(false, candidate);
        CountedOne(candidate, failures - old(failures));
        return;
      }
      exit := ReleaseOrRestore(independent, true, release, candidate, previous, rows);
    }

    lemma CountedOne(candidate: Revision, failed: int)
      ensures failed == 1 ==> Counted(Raised(false, candidate), failed)
    {
    }

    lemma ExactlyThis(independent: bool, release: Sha, continuation: Continuation)
      ensures Grantable(release, continuation) ==>
                ExactCommit(release) && Exact(continuation.runtime)
                && runtimes(continuation.candidate) == Runtime(RUNTIME_V1, release)
    {
    }

    lemma SameRows(a: map<Revision, Runtime>, b: map<Revision, Runtime>, t: map<Revision, nat>)
      requires Describes(a, t)
      ensures Describes(b, t) <==> b == a
    {
    }

    /** Everything before the try block: the production and the candidate are still what was prepared. */
    method Recheck(independent: bool, release: Sha, continuation: Continuation)
      returns (ok: bool, previous: map<Revision, nat>, rows: map<Revision, Runtime>)
      modifies this`commands, this`failures, this`passed
      ensures ok ==> previous == traffic == continuation.previous && rows == continuation.runtime
                     && Describes(rows, previous) && failures == old(failures)
      ensures ok && independent ==> runtimes(continuation.candidate) == Runtime(RUNTIME_V1, release)
      ensures ok ==>
                var probe := if independent then Readiness(continuation.candidate, false) else CandidateSmoke;
                passed == old(passed) + [Passed(Facts, Now()), Passed(Web, Now()), Passed(probe, Now())]
      ensures !ok && traffic == continuation.previous && Describes(continuation.runtime, traffic) ==>
                failures == old(failures) + 1
      ensures traffic == continuation.previous && Describes(continuation.runtime, traffic) && Smooth() ==>
                ok || (independent && runtimes(continuation.candidate) != Runtime(RUNTIME_V1, release))
    {
      hide Describes;
      rows := map[];
      ok, previous := ReadTraffic();
      if !ok || previous != continuation.previous { return false, previous, rows; }
      ok, rows := ReadRuntimes(previous);
      if ok { SameRows(rows, continuation.runtime, previous); }
      if !ok || rows != continuation.runtime { return false, previous, rows; }
      ok := Attempt(Facts); // candidate facts and private boundary
      if !ok { return; }
      ok := Attempt(Web); // the paired web service
      if !ok { return; }
      if independent {
        ok := Ready(continuation.candidate, release, false);
      } else {
        ok := Attempt(CandidateSmoke); // smoke test and candidate_hooks
      }
    }

    /** The try statement: release, or restore and tell how that went. */
    method ReleaseOrRestore(independent: bool, staged: bool, release: Sha, candidate: Revision,
                            previous: map<Revision, nat>, rows: map<Revision, Runtime>)
      returns (exit: Exit)
      requires traffic == previous && Describes(rows, previous)
      requires independent ==> Safe(Now()) && runtimes(candidate) == Runtime(RUNTIME_V1, release)
      modifies this`traffic, this`authorized, this`trace, this`commands, this`failures, this`passed
      ensures old(trace) <= trace
      ensures FineSince(old(|trace|), independent, previous, candidate, old(authorized) + {release})
      ensures ExitContract(exit, independent, release, old(Now()), old(|trace|), failures - old(failures))
      ensures Counted(exit, failures - old(failures))
      ensures Smooth() && (independent ==> ExactCommit(release) && Exact(rows)) ==> exit.Returned?
      ensures exit.Returned? ==>
                && exit.candidate == candidate
                && passed == old(passed) + Validation(independent, staged, release, candidate, old(Now()))
      ensures !independent ==> authorized == old(authorized)
    {
      hide Validation;
      ghost var most := old(authorized) + {release};
      var ok, promoted := TryRelease(independent, staged, release, candidate, previous, rows);
      if ok {
        assert independent ==> forall r | r in rows && Scoped(rows[r]) :: rows[r].sha in Needed(rows);
        return Returned(candidate);
      }
      assert independent ==> Needed(rows) <= most;
      ok := Restore(independent, independent, promoted, release, candidate, previous, rows, most);
      assert ok && independent && promoted ==> forall r | r in rows && Scoped(rows[r]) :: rows[r].sha in Needed(rows);
      return if ok && promoted then AutomaticRollback else Raised(promoted, candidate);
    }

    /** rollback_runtime: the target is authorized before it serves. A failure of one command puts the old traffic back;
        only a second one can leave the target serving. */
    method RollbackRuntime(target: Revision) returns (ok: bool)
      requires Safe(Now())
      modifies this`traffic, this`authorized, this`trace, this`commands, this`failures, this`passed
      ensures old(trace) <= trace
      ensures FineSince(old(|trace|), true, old(traffic), target, old(authorized) + {runtimes(target).sha})
      ensures old(authorized) <= authorized
      ensures ok ==> traffic == Everything(target) && Scoped(runtimes(target)) && runtimes(target).sha in authorized
      ensures ok ==> passed == old(passed) + [Passed(Web, old(Now())),
                                              Passed(Readiness(target, true), Now())]
      ensures ok <==> failures == old(failures) && Scoped(runtimes(target))
      ensures failures <= old(failures) + 1 && !ok ==> traffic == old(traffic)
      ensures !ok ==> traffic == old(traffic) || traffic == Everything(target)
      ensures !ok && !Scoped(runtimes(target)) ==> trace == old(trace)
      ensures Smooth() && Scoped(runtimes(target)) && ExactCommit(runtimes(target).sha) ==> ok
    {
      ok := Describe();
      if !ok { return; }
      if runtimes(target).scope != RUNTIME_V1 { return false; }
      var previous;
      ok, previous := ReadTraffic();
      if !ok { return; }
      ok := Attempt(Web);
      if !ok { return; }
      ok := Authorize(runtimes(target).sha);
      if !ok { return; }
      ok := ServeOrGoBack(target, previous, authorized);
    }

    /** The target, or else the traffic from before. */
    method ServeOrGoBack(target: Revision, previous: map<Revision, nat>, ghost most: set<Sha>) returns (ok: bool)
      requires traffic == previous && Safe(Now()) && Scoped(runtimes(target)) && runtimes(target).sha in authorized
      requires authorized <= most
      modifies this`traffic, this`trace, this`commands, this`failures, this`passed
      ensures old(trace) <= trace && FineSince(old(|trace|), true, previous, target, most)
      ensures ok ==> traffic == Everything(target)
                     && passed == old(passed) + [Passed(Readiness(target, true), Now())]
      ensures ok <==> failures == old(failures)
      ensures failures <= old(failures) + 1 && !ok ==> traffic == previous
      ensures traffic == previous || traffic == Everything(target)
      ensures Smooth() ==> ok
    {
      ok := SetTraffic(map[target := 100]);
      if ok {
        ok := Ready(target, runtimes(target).sha, true);
        if ok { return; }
      }
      var back := SetTraffic(previous);
      ok := false;
    }

    /** deploy without a recovery hook, for the services that keep no grants. Once hooks may have had effects, or
        traffic may have moved, a failure is an automatic rollback unless a second command fails. */
    method Deploy(preCandidateHooks: bool, prePromoteHooks: bool) returns (exit: Exit, ghost candidate: Revision)
      modifies this`traffic, this`trace, this`commands, this`failures, this`passed
      ensures old(trace) <= trace && FineSince(old(|trace|), false, old(traffic), candidate, authorized)
      ensures ExitContract(exit, false, "", old(Now()), old(|trace|), failures - old(failures))
      ensures Counted(exit, failures - old(failures))
      ensures Smooth() ==> exit.Returned?
      ensures exit.Returned? ==>
                exit.candidate == candidate
                && passed == old(passed) + [Passed(Manifest, old(Now())), Passed(CandidateSmoke, old(Now())),
                                            Passed(Hooks, old(Now())), Passed(Smoke, Now())]
      ensures exit.Raised? && failures == old(failures) + 1 && commands > old(commands) + 2 ==>
                !preCandidateHooks && (|passed| > old(|passed|) + 1 ==> !prePromoteHooks)
    {
      candidate := "";
      var ok, previous := ReadTraffic();
      if !ok { return Raised(false, ""), ""; }
      ok := Attempt(Manifest); // verify_hooks
      if !ok { return Raised(false, ""), ""; }
      var revision: Revision := *;
      candidate := revision;
      var promoted, sideEffects;
      ok, promoted, sideEffects := TryDeploy(revision, preCandidateHooks, prePromoteHooks, previous);
      if ok { return Returned(revision), candidate; }
      if !promoted && !sideEffects { return Raised(false, revision), candidate; }
      ok := PutBack(promoted, revision, previous);
      return if ok then AutomaticRollback else Raised(promoted, revision), candidate;
    }

    /** The try block of deploy. */
    method TryDeploy(revision: Revision, preCandidateHooks: bool, prePromoteHooks: bool,
                     ghost previous: map<Revision, nat>)
      returns (ok: bool, promoted: bool, sideEffects: bool)
      requires traffic == previous
      modifies this`traffic, this`trace, this`commands, this`failures, this`passed
      ensures old(trace) <= trace && FineSince(old(|trace|), false, previous, revision, authorized)
      ensures traffic == previous || traffic == Everything(revision)
      ensures !promoted ==> !ok && traffic == previous && trace == old(trace)
      ensures ok ==> traffic == Everything(revision)
      ensures ok ==> passed == old(passed) + [Passed(CandidateSmoke, old(Now())), Passed(Hooks, old(Now())),
                                              Passed(Smoke, Now())]
      ensures ok <==> failures == old(failures)
      ensures !ok ==> failures == old(failures) + 1
      ensures Smooth() ==> ok
      ensures preCandidateHooks ==> sideEffects
      ensures prePromoteHooks && |passed| > old(|passed|) ==> sideEffects
    {
      promoted, sideEffects := false, preCandidateHooks;
      ok := Attempt(CandidateSmoke); // pre_candidate_hooks, the candidate, its smoke test and candidate_hooks
      if !ok { return; }
      sideEffects := sideEffects || prePromoteHooks;
      ok := Attempt(Hooks); // pre_promote_hooks
      if !ok { return; }
      promoted := true; // a failed update may already have moved traffic
      ok := SetTraffic(map[revision := 100]);
      if ok { ok := Attempt(Smoke); }
    }

    /** Its handler: the traffic from before, verified. */
    method PutBack(promoted: bool, ghost revision: Revision, previous: map<Revision, nat>) returns (ok: bool)
      requires traffic == previous || (promoted && traffic == Everything(revision))
      modifies this`traffic, this`trace, this`commands, this`failures
      ensures old(trace) <= trace && FineSince(old(|trace|), false, previous, revision, authorized)
      ensures !promoted ==> traffic == previous && trace == old(trace)
      ensures traffic == previous || traffic == Everything(revision)
      ensures ok ==> traffic == previous
      ensures ok <==> failures == old(failures)
      ensures !ok ==> failures == old(failures) + 1
    {
      if promoted {
        ok := SetTraffic(previous);
        if !ok { return; }
      }
      var current;
      ok, current := ReadTraffic();
      ok := ok && current == previous;
    }
  }
}
