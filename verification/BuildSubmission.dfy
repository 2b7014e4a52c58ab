/** At-most-once build submission: operate, reconcile and reserve of
    scripts/ops/cloud-build-fallback/control.py:104-243. Any number of runs, on any prepared directories and with any
    state files and experiment ledgers, interleave between any two file operations, and a run may stop at any point;
    stopping releases its locks. */
module BuildSubmission {
  type Path = string
  type Fingerprint = string
  type BuildId = string
  type Slot = string
  type RunId = nat

  datatype Option<+T> = None | Some(value: T)

  /** What preparing a directory fixed; validate_inputs refuses a directory in which it changed. */
  datatype Request = Request(fingerprint: Fingerprint, commit: string, base: string, profile: string)

  datatype Entry = Entry(fingerprint: Fingerprint, commit: string, base: string, profile: string)

  type Ledger = map<Slot, Entry>

  /** The JSON objects found in files. Only the first kind has a top-level request fingerprint. */
  datatype Doc = StateDoc(fingerprint: Fingerprint, build: Option<BuildId>) | LedgerDoc(entries: Ledger) | OtherDoc

  // Paths

  /** directory.with_name(directory.name + ".submission.json"). */
  ghost function Canonical(directory: Path): Path { directory + SUFFIX }

  /** The path without its suffix, which a dot starts that is neither the first nor the last character of the name. */
  ghost function Stem(path: Path, n: nat): Path
    requires n <= |path|
    decreases n
  {
    if n <= 1 || path[n - 1] == '/' then path
    else if path[n - 1] != '.' then Stem(path, n - 1)
    else if n == |path| || path[n - 2] == '/' then path
    else path[..n - 1]
  }

  /** path.with_suffix(".build.json"). */
  ghost function BuildFile(path: Path): Path { Stem(path, |path|) + ".build.json" }

  ghost predicate Plain(text: string) { '.' !in text && '/' !in text }

  lemma {:induction false} StemSkips(path: Path, k: nat, n: nat)
    requires 1 <= k <= n <= |path| && Plain(path[k..n])
    ensures Stem(path, n) == Stem(path, k)
    decreases n
  {
    if k < n {
      assert path[n - 1] == path[k..n][n - 1 - k];
      assert path[k..n - 1] == path[k..n][..n - 1 - k];
      StemSkips(path, k, n - 1);
    }
  }

  /** A suffix is replaced. */
  lemma SuffixReplaced(stem: Path, suffix: string)
    requires stem != [] && stem[|stem| - 1] != '/' && suffix != [] && Plain(suffix)
    ensures BuildFile(stem + "." + suffix) == stem + ".build.json"
  {
    var path := stem + "." + suffix;
    assert path[|stem| + 1..|path|] == suffix;
    StemSkips(path, |stem| + 1, |path|);
    assert path[..|stem|] == stem;
  }

  /** A name without one gets one: a dot at its start or at its end starts no suffix. */
  lemma SuffixAdded(parent: Path, name: string)
    requires parent == [] || parent[|parent| - 1] == '/'
    requires name != [] && name[0] != '/' && (Plain(name[1..]) || name[|name| - 1] == '.')
    ensures BuildFile(parent + name) == parent + name + ".build.json"
  {
    var path, k := parent + name, |parent| + 1;
    if name[|name| - 1] != '.' {
      assert path[k..|path|] == name[1..];
      StemSkips(path, k, |path|);
      assert path[k - 1] == name[0] && (k > 1 ==> path[k - 2] == '/');
    }
  }

  /** The build file of a directory. */
  lemma BuildFileIs(directory: Path)
    ensures BuildFile(Canonical(directory)) == directory + ".submission.build.json"
  {
    var stem := directory + ".submission";
    assert Canonical(directory) == stem + "." + "json" && stem[|stem| - 1] == 'n';
    SuffixReplaced(stem, "json");
  }

  const SUFFIX := ".submission.json"

  ghost predicate IsCanonical(path: Path) { |path| >= |SUFFIX| && path[|path| - |SUFFIX|..] == SUFFIX }

  lemma CanonicalIs(directory: Path)
    ensures IsCanonical(Canonical(directory))
  {
  }

  /** No build file is the state file of any directory. */
  lemma BuildFileIsNotCanonical(path: Path)
    ensures !IsCanonical(BuildFile(path))
  {
    var p := BuildFile(path);
    assert p[|p| - 6] == 'd';
    if |p| >= |SUFFIX| { assert p[|p| - |SUFFIX|..][|SUFFIX| - 6] == 'd' && SUFFIX[|SUFFIX| - 6] == 'n'; }
  }

  // The state

  /** Where a run is: each value stands just before a file operation or cloud call. */
  datatype Pc =
    | Entering
    | Locked
    | Adopting(mirrored: Doc)
    | Checking
    | Reserving
    | Reading
    | Consuming(ledger: Ledger)
    | Intending
    | Mirroring
    | Submitting
    | Reconciling(saved: Option<BuildId>)
    | Binding(build: BuildId, stage: nat, submitted: bool)
    | Finished(build: BuildId)

  datatype Run = Run(directory: Path, mirror: Path, submit: bool, experiment: Option<Path>, slot: Slot, pc: Pc)

  /** `listing` is what the cloud lists now; `reserved` remembers, for each path, the last ledger that was written
      there. */
  datatype State = State(files: map<Path, Doc>, locks: map<Path, RunId>, submissions: multiset<Path>,
                         runs: map<RunId, Run>, reserved: map<Path, Ledger>, listing: set<BuildId>)

  /** The prepared directories and the fingerprint every build was submitted with. */
  datatype World = World(request: Path -> Request, fingerprintOf: BuildId -> Fingerprint)

  const SLOTS: set<Slot> := {"performance", "economy", "confirmation"}

  ghost function At(s: State, r: RunId, pc: Pc): State
    requires r in s.runs
  {
    s.(runs := s.runs[r := s.runs[r].(pc := pc)])
  }

  ghost function Save(s: State, path: Path, doc: Doc): State { s.(files := s.files[path := doc]) }

  // The steps

  ghost predicate Start(s: State, t: State, r: RunId, run: Run) {
    r !in s.runs && run.pc == Entering && t == s.(runs := s.runs[r := run])
  }

  /** A run ends: it returned, raised or was killed. Its locks are free. */
  ghost predicate Stop(s: State, t: State, r: RunId) {
    t == s.(runs := s.runs - {r}, locks := map p | p in s.locks && s.locks[p] != r :: s.locks[p])
  }

  ghost predicate Lock(s: State, t: State, r: RunId) {
    && r in s.runs && s.runs[r].pc.Entering? && Canonical(s.runs[r].directory) !in s.locks
    && t == At(s, r, Locked).(locks := s.locks[Canonical(s.runs[r].directory) := r])
  }

  /** The mirror: absent, or a state of this very request. */
  ghost predicate LookAtMirror(w: World, s: State, t: State, r: RunId) {
    && r in s.runs && s.runs[r].pc.Locked?
    && if s.runs[r].mirror !in s.files then t == At(s, r, Checking)
       else
         && s.files[s.runs[r].mirror].StateDoc?
         && s.files[s.runs[r].mirror].fingerprint == w.request(s.runs[r].directory).fingerprint
         && t == At(s, r, if Canonical(s.runs[r].directory) in s.files then Checking
                          else Adopting(s.files[s.runs[r].mirror]))
  }

  ghost predicate Adopt(s: State, t: State, r: RunId) {
    && r in s.runs && s.runs[r].pc.Adopting?
    && t == Save(At(s, r, Checking), Canonical(s.runs[r].directory), s.runs[r].pc.mirrored)
  }

  /** The state file: one of this request is reconciled; without one, a run that may submit goes on. */
  ghost predicate Check(w: World, s: State, t: State, r: RunId) {
    && r in s.runs && s.runs[r].pc.Checking?
    && var path := Canonical(s.runs[r].directory);
       if path in s.files then
         && s.files[path].StateDoc? && s.files[path].fingerprint == w.request(s.runs[r].directory).fingerprint
         && t == At(s, r, Reconciling(s.files[path].build))
       else s.runs[r].submit && t == At(s, r, Reserving)
  }

  ghost predicate SkipReserve(s: State, t: State, r: RunId) {
    && r in s.runs && s.runs[r].pc.Reserving? && s.runs[r].experiment.None?
    && t == At(s, r, Intending)
  }

  ghost predicate SlotFits(slot: Slot, profile: string) {
    slot in SLOTS && (slot != "confirmation" ==> slot == profile)
  }

  ghost predicate LockExperiment(w: World, s: State, t: State, r: RunId) {
    && r in s.runs && s.runs[r].pc.Reserving? && s.runs[r].experiment.Some? && s.runs[r].experiment.value !in s.locks
    && SlotFits(s.runs[r].slot, w.request(s.runs[r].directory).profile)
    && t == At(s, r, Reading).(locks := s.locks[s.runs[r].experiment.value := r])
  }

  ghost function EntryOf(q: Request): Entry { Entry(q.fingerprint, q.commit, q.base, q.profile) }

  /** The checks of reserve. */
  ghost predicate Reservable(ledger: Ledger, slot: Slot, q: Request) {
    && slot !in ledger
    && (forall k | k in ledger :: ledger[k].fingerprint != q.fingerprint)
    && (forall k | k in ledger :: ledger[k].commit == q.commit && ledger[k].base == q.base)
  }

  ghost predicate ReadLedger(w: World, s: State, t: State, r: RunId, ledger: Ledger) {
    && r in s.runs && s.runs[r].pc.Reading? && s.runs[r].experiment.Some?
    && (if s.runs[r].experiment.value in s.files then s.files[s.runs[r].experiment.value] == LedgerDoc(ledger)
        else ledger == map[])
    && Reservable(ledger, s.runs[r].slot, w.request(s.runs[r].directory))
    && t == At(s, r, Consuming(ledger[s.runs[r].slot := EntryOf(w.request(s.runs[r].directory))]))
  }

  ghost predicate WriteLedger(s: State, t: State, r: RunId) {
    && r in s.runs && s.runs[r].pc.Consuming? && s.runs[r].experiment.Some?
    && var path := s.runs[r].experiment.value;
       t == Save(At(s, r, Intending), path, LedgerDoc(s.runs[r].pc.ledger))
            .(locks := s.locks - {path}, reserved := s.reserved[path := s.runs[r].pc.ledger])
  }

  /** The intent is persisted before the external call. */
  ghost predicate Intend(w: World, s: State, t: State, r: RunId) {
    && r in s.runs && s.runs[r].pc.Intending?
    && t == Save(At(s, r, Mirroring), Canonical(s.runs[r].directory),
                 StateDoc(w.request(s.runs[r].directory).fingerprint, None))
  }

  ghost predicate Mirror(w: World, s: State, t: State, r: RunId) {
    && r in s.runs && s.runs[r].pc.Mirroring?
    && t == Save(At(s, r, Submitting), s.runs[r].mirror, StateDoc(w.request(s.runs[r].directory).fingerprint, None))
  }

  /** The submit call. It may create a build whatever it answers; only a matching answer is taken on. */
  ghost predicate Submit(w: World, s: State, t: State, r: RunId, answer: Option<BuildId>) {
    && r in s.runs && s.runs[r].pc.Submitting?
    && var called := s.(submissions := s.submissions + multiset{s.runs[r].directory});
       if answer.Some? && w.fingerprintOf(answer.value) == w.request(s.runs[r].directory).fingerprint
       then t == At(called, r, Binding(answer.value, 0, true))
       else Stop(called, t, r)
  }

  ghost predicate Verified(w: World, saved: Option<BuildId>, fingerprint: Fingerprint, listed: set<BuildId>,
                           build: BuildId)
  {
    if saved.Some? then build == saved.value && w.fingerprintOf(build) == fingerprint
    else (set b | b in listed && w.fingerprintOf(b) == fingerprint) == {build}
  }

  /** What the cloud lists changes at any time. */
  ghost predicate Relist(s: State, t: State) { t == s.(listing := t.listing) }

  /** reconcile: the saved build described, or the only matching build of the listing. */
  ghost predicate Reconcile(w: World, s: State, t: State, r: RunId, build: BuildId) {
    && r in s.runs && s.runs[r].pc.Reconciling?
    && Verified(w, s.runs[r].pc.saved, w.request(s.runs[r].directory).fingerprint, s.listing, build)
    && t == At(s, r, Binding(build, 0, false))
  }

  /** The four files written once a build is known. After reconciling, the mirror is a copy of what the state file holds
      by then. */
  ghost predicate Bind(w: World, s: State, t: State, r: RunId) {
    && r in s.runs && s.runs[r].pc.Binding?
    && var run, build := s.runs[r], s.runs[r].pc.build;
       var next := At(s, r, if run.pc.stage < 3 then Binding(build, run.pc.stage + 1, run.pc.submitted)
                            else Finished(build));
       var bound := StateDoc(w.request(run.directory).fingerprint, Some(build));
       if run.pc.stage == 0 then t == Save(next, Canonical(run.directory), bound)
       else if run.pc.stage == 1 then t == Save(next, BuildFile(Canonical(run.directory)), OtherDoc)
       else if run.pc.stage == 2 then
         if run.pc.submitted then t == Save(next, run.mirror, bound)
         else Canonical(run.directory) in s.files && t == Save(next, run.mirror, s.files[Canonical(run.directory)])
       else t == Save(next, BuildFile(run.mirror), OtherDoc)
  }

  ghost predicate RunStep(w: World, s: State, t: State, r: RunId) {
    || Stop(s, t, r) || Lock(s, t, r) || LookAtMirror(w, s, t, r) || Adopt(s, t, r) || Check(w, s, t, r)
    || SkipReserve(s, t, r) || LockExperiment(w, s, t, r) || WriteLedger(s, t, r)
    || Intend(w, s, t, r) || Mirror(w, s, t, r) || Bind(w, s, t, r)
  }

  ghost predicate Step(w: World, s: State, t: State) {
    || (exists r, run :: Start(s, t, r, run))
    || (exists r :: RunStep(w, s, t, r))
    || (exists r, ledger :: ReadLedger(w, s, t, r, ledger))
    || (exists r, answer :: Submit(w, s, t, r, answer))
    || (exists r, build :: Reconcile(w, s, t, r, build))
    || Relist(s, t)
  }

  /** Nothing runs and nothing was submitted; any files may be there, with anything in them. */
  ghost predicate Initial(s: State) {
    && s.runs == map[] && s.locks == map[] && s.submissions == multiset{}
    && (forall p :: p in s.reserved <==> p in s.files && s.files[p].LedgerDoc?)
    && (forall p | p in s.reserved :: s.files[p] == LedgerDoc(s.reserved[p]))
  }

  ghost predicate History(w: World, h: seq<State>) {
    h != [] && Initial(h[0]) && forall i | 0 <= i < |h| - 1 :: Step(w, h[i], h[i + 1])
  }

  // The invariant

  /** Distinct fingerprints, one commit and one comparison base, and machine profiles that fit their slots. */
  ghost predicate SoundLedger(ledger: Ledger) {
    && (forall a | a in ledger ::
          a == "confirmation" || (a == ledger[a].profile && (a == "performance" || a == "economy")))
    && (forall a, b | a in ledger && b in ledger && a != b :: ledger[a].fingerprint != ledger[b].fingerprint)
    && (forall a, b | a in ledger && b in ledger ::
          ledger[a].commit == ledger[b].commit && ledger[a].base == ledger[b].base)
  }

  ghost predicate Extends(a: Ledger, b: Ledger) { forall k | k in a :: k in b && b[k] == a[k] }

  ghost predicate Holds(ledger: Ledger, slot: Slot, entry: Entry) { slot in ledger && ledger[slot] == entry }

  lemma HoldsOn(a: Ledger, b: Ledger, slot: Slot, entry: Entry)
    requires Extends(a, b) && Holds(a, slot, entry)
    ensures Holds(b, slot, entry)
  {
  }

  ghost function Reserved(s: State, path: Path): Ledger { if path in s.reserved then s.reserved[path] else map[] }

  /** Between the check that no state file exists and the submit call. */
  ghost predicate Committed(pc: Pc) {
    pc.Reserving? || pc.Reading? || pc.Consuming? || pc.Intending? || pc.Mirroring? || pc.Submitting?
  }

  ghost predicate GoodRun(w: World, s: State, r: RunId)
    requires r in s.runs
  {
    var run := s.runs[r];
    var state := Canonical(run.directory);
    && (!run.pc.Entering? ==> state in s.locks && s.locks[state] == r)
    && (Committed(run.pc) ==> run.submit && s.submissions[run.directory] == 0)
    && (run.pc.Mirroring? || run.pc.Submitting? || run.pc.Reconciling? || run.pc.Binding? ==> state in s.files)
    && (run.pc.Binding? && run.pc.stage > 0 ==> s.files[state].StateDoc?)
    && (run.pc.Adopting? ==> run.pc.mirrored.StateDoc?)
    && (run.pc.Binding? ==> w.fingerprintOf(run.pc.build) == w.request(run.directory).fingerprint)
    && (run.pc.Finished? ==> w.fingerprintOf(run.pc.build) == w.request(run.directory).fingerprint)
    && (run.pc.Reading? || run.pc.Consuming? ==>
          && run.experiment.Some? && run.experiment.value != state
          && SlotFits(run.slot, w.request(run.directory).profile)
          && run.experiment.value in s.locks && s.locks[run.experiment.value] == r)
    && (run.pc.Consuming? ==>
          && Extends(Reserved(s, run.experiment.value), run.pc.ledger)
          && Holds(run.pc.ledger, run.slot, EntryOf(w.request(run.directory))))
    && ((run.pc.Intending? || run.pc.Mirroring? || run.pc.Submitting?) && run.experiment.Some? ==>
          Holds(Reserved(s, run.experiment.value), run.slot, EntryOf(w.request(run.directory))))
  }

  ghost predicate GoodFiles(s: State) {
    && (forall d :: s.submissions[d] <= 1)
    && (forall d | s.submissions[d] > 0 :: Canonical(d) in s.files)
    && (forall p | p in s.reserved :: p in s.files)
    && (forall p | p in s.files && s.files[p].LedgerDoc? :: p in s.reserved && s.reserved[p] == s.files[p].entries)
  }

  ghost predicate Inv(w: World, s: State) { GoodFiles(s) && forall r | r in s.runs :: GoodRun(w, s, r) }

  /** A step of one run leaves the locks, counts and ledgers of the others alone, removes no file, and puts nothing but
      a state into a state file another run has locked. */
  ghost predicate Undisturbed(s: State, t: State, r: RunId) {
    && (forall q | q in t.runs && q != r :: q in s.runs && t.runs[q] == s.runs[q])
    && (forall p | p in s.locks && s.locks[p] != r :: p in t.locks && t.locks[p] == s.locks[p])
    && (forall p | p in s.files :: p in t.files)
    && (forall p | p in s.files && p in s.locks && s.locks[p] != r && IsCanonical(p) && s.files[p].StateDoc? ::
          t.files[p].StateDoc?)
    && (forall q | q in s.runs && q != r && Committed(s.runs[q].pc) ::
          t.submissions[s.runs[q].directory] <= s.submissions[s.runs[q].directory])
    && (forall p | p in s.locks && s.locks[p] != r :: Reserved(t, p) == Reserved(s, p))
    && (forall p :: Extends(Reserved(s, p), Reserved(t, p)))
  }

  lemma RunIsGood(w: World, s: State, r: RunId)
    requires Inv(w, s)
    ensures GoodFiles(s) && (r in s.runs ==> GoodRun(w, s, r))
  {
    hide GoodFiles, GoodRun;
  }

  lemma OtherKeeps(w: World, s: State, t: State, r: RunId, q: RunId)
    requires Undisturbed(s, t, r) && q != r && q in t.runs && q in s.runs && GoodRun(w, s, q)
    ensures GoodRun(w, t, q)
  {
    hide Extends, IsCanonical, Holds;
    CanonicalIs(s.runs[q].directory);
    var run := s.runs[q];
    if (run.pc.Intending? || run.pc.Mirroring? || run.pc.Submitting?) && run.experiment.Some? {
      var path := run.experiment.value;
      HoldsOn(Reserved(s, path), Reserved(t, path), run.slot, EntryOf(w.request(run.directory)));
    }
  }

  lemma InvAfter(w: World, s: State, t: State, r: RunId)
    requires Inv(w, s) && Undisturbed(s, t, r) && GoodFiles(t) && (r in t.runs ==> GoodRun(w, t, r))
    ensures Inv(w, t)
  {
    hide GoodFiles, GoodRun;
    forall q | q in t.runs ensures GoodRun(w, t, q) {
      if q != r {
        assert q in s.runs by { OthersStay(s, t, r, q); }
        OtherKeeps(w, s, t, r, q);
      }
    }
  }

  lemma OthersStay(s: State, t: State, r: RunId, q: RunId)
    requires Undisturbed(s, t, r) && q != r && q in t.runs
    ensures q in s.runs
  {
  }

  lemma SameFiles(s: State, t: State)
    requires GoodFiles(s) && t.files == s.files && t.submissions == s.submissions && t.reserved == s.reserved
    ensures GoodFiles(t)
  {
  }

  lemma QuietStep(s: State, t: State, r: RunId)
    requires forall q | q in t.runs && q != r :: q in s.runs && t.runs[q] == s.runs[q]
    requires forall p | p in s.locks && s.locks[p] != r :: p in t.locks && t.locks[p] == s.locks[p]
    requires t.files == s.files && t.reserved == s.reserved && t.submissions == s.submissions
    ensures Undisturbed(s, t, r)
  {
  }

  /** A save of anything but a ledger, which is a state wherever another run may have its state file. */
  lemma SaveStep(s: State, t: State, r: RunId, path: Path, doc: Doc)
    requires forall q | q in t.runs && q != r :: q in s.runs && t.runs[q] == s.runs[q]
    requires t.locks == s.locks && t.reserved == s.reserved && t.submissions == s.submissions
    requires t.files == s.files[path := doc] && (doc.StateDoc? || !IsCanonical(path))
    ensures Undisturbed(s, t, r)
  {
    hide IsCanonical;
  }

  lemma InvStop(w: World, s: State, t: State, r: RunId)
    requires Inv(w, s) && Stop(s, t, r)
    ensures Inv(w, t)
  {
    hide Undisturbed, Inv, GoodFiles, GoodRun, IsCanonical;
    RunIsGood(w, s, r);
    SameFiles(s, t);
    QuietStep(s, t, r);
    InvAfter(w, s, t, r);
  }

  lemma InvStart(w: World, s: State, t: State, r: RunId, run: Run)
    requires Inv(w, s) && Start(s, t, r, run)
    ensures Inv(w, t)
  {
    hide Undisturbed, Inv, GoodFiles, IsCanonical, Extends;
    RunIsGood(w, s, r);
    SameFiles(s, t);
    QuietStep(s, t, r);
    InvAfter(w, s, t, r);
  }

  /** Locks, decisions and reads change no file. */
  lemma InvQuiet(w: World, s: State, t: State, r: RunId)
    requires Inv(w, s) && (Lock(s, t, r) || SkipReserve(s, t, r) || LockExperiment(w, s, t, r))
    ensures Inv(w, t)
  {
    hide Undisturbed, Inv, GoodFiles, IsCanonical, Extends;
    RunIsGood(w, s, r);
    SameFiles(s, t);
    QuietStep(s, t, r);
    InvAfter(w, s, t, r);
  }

  lemma InvLook(w: World, s: State, t: State, r: RunId)
    requires Inv(w, s) && LookAtMirror(w, s, t, r)
    ensures Inv(w, t)
  {
    hide Undisturbed, Inv, GoodFiles, IsCanonical, Extends, Canonical;
    RunIsGood(w, s, r);
    SameFiles(s, t);
    QuietStep(s, t, r);
    InvAfter(w, s, t, r);
  }

  lemma InvCheck(w: World, s: State, t: State, r: RunId)
    requires Inv(w, s) && Check(w, s, t, r)
    ensures Inv(w, t)
  {
    hide Undisturbed, Inv, GoodFiles, IsCanonical, Extends, Canonical;
    RunIsGood(w, s, r);
    NotSubmitted(s, s.runs[r].directory);
    SameFiles(s, t);
    QuietStep(s, t, r);
    InvAfter(w, s, t, r);
  }

  /** Without a state file nothing was submitted. */
  lemma NotSubmitted(s: State, directory: Path)
    requires GoodFiles(s)
    ensures Canonical(directory) !in s.files ==> s.submissions[directory] == 0
  {
  }

  /** Any file may be written with something that is no ledger. */
  lemma GoodSave(s: State, t: State, path: Path, doc: Doc)
    requires GoodFiles(s) && !doc.LedgerDoc?
    requires t.files == s.files[path := doc] && t.submissions == s.submissions && t.reserved == s.reserved
    ensures GoodFiles(t)
  {
  }

  lemma InvAdopt(w: World, s: State, t: State, r: RunId)
    requires Inv(w, s) && Adopt(s, t, r)
    ensures Inv(w, t)
  {
    hide Undisturbed, Inv, GoodFiles, IsCanonical, Extends;
    RunIsGood(w, s, r);
    GoodSave(s, t, Canonical(s.runs[r].directory), s.runs[r].pc.mirrored);
    SaveStep(s, t, r, Canonical(s.runs[r].directory), s.runs[r].pc.mirrored);
    InvAfter(w, s, t, r);
  }

  lemma InvIntend(w: World, s: State, t: State, r: RunId)
    requires Inv(w, s) && (Intend(w, s, t, r) || Mirror(w, s, t, r))
    ensures Inv(w, t)
  {
    hide Undisturbed, Inv, GoodFiles, IsCanonical, Extends;
    RunIsGood(w, s, r);
    var path := if Intend(w, s, t, r) then Canonical(s.runs[r].directory) else s.runs[r].mirror;
    GoodSave(s, t, path, StateDoc(w.request(s.runs[r].directory).fingerprint, None));
    SaveStep(s, t, r, path, StateDoc(w.request(s.runs[r].directory).fingerprint, None));
    InvAfter(w, s, t, r);
  }

  lemma ExtendsMore(ledger: Ledger, slot: Slot, entry: Entry)
    requires slot !in ledger
    ensures Extends(ledger, ledger[slot := entry])
  {
  }

  /** What a run reads as the ledger is the last one written there. */
  lemma LedgerRead(s: State, path: Path, ledger: Ledger)
    requires GoodFiles(s) && if path in s.files then s.files[path] == LedgerDoc(ledger) else ledger == map[]
    ensures Reserved(s, path) == ledger
  {
  }

  lemma InvReadLedger(w: World, s: State, t: State, r: RunId, ledger: Ledger)
    requires Inv(w, s) && ReadLedger(w, s, t, r, ledger)
    ensures Inv(w, t)
  {
    hide Undisturbed, Inv, GoodFiles, IsCanonical, Extends, Reserved;
    RunIsGood(w, s, r);
    LedgerRead(s, s.runs[r].experiment.value, ledger);
    ExtendsMore(ledger, s.runs[r].slot, EntryOf(w.request(s.runs[r].directory)));
    SameFiles(s, t);
    SameReserved(s, t);
    QuietStep(s, t, r);
    InvAfter(w, s, t, r);
  }

  lemma SameReserved(s: State, t: State)
    requires t.reserved == s.reserved
    ensures forall p :: Reserved(t, p) == Reserved(s, p)
  {
  }

  lemma GoodLedger(s: State, t: State, path: Path, ledger: Ledger)
    requires GoodFiles(s) && t.files == s.files[path := LedgerDoc(ledger)]
    requires t.submissions == s.submissions && t.reserved == s.reserved[path := ledger]
    ensures GoodFiles(t)
  {
  }

  lemma NoneLost(s: State, t: State)
    requires t.reserved == s.reserved
    ensures forall p :: Extends(Reserved(s, p), Reserved(t, p))
  {
  }

  lemma NoneLostIn(s: State, t: State, path: Path, ledger: Ledger)
    requires t.reserved == s.reserved[path := ledger] && Extends(Reserved(s, path), ledger)
    ensures forall p :: Extends(Reserved(s, p), Reserved(t, p))
  {
  }

  lemma InvWriteLedger(w: World, s: State, t: State, r: RunId)
    requires Inv(w, s) && WriteLedger(s, t, r)
    ensures Inv(w, t)
  {
    hide Inv, GoodFiles, IsCanonical, Extends;
    RunIsGood(w, s, r);
    GoodLedger(s, t, s.runs[r].experiment.value, s.runs[r].pc.ledger);
    NoneLostIn(s, t, s.runs[r].experiment.value, s.runs[r].pc.ledger);
    InvAfter(w, s, t, r);
  }

  /** While one run of a directory is committed, no other run of it is: they would both hold its lock. */
  lemma Alone(w: World, s: State, r: RunId, q: RunId)
    requires Inv(w, s) && r in s.runs && q in s.runs && !s.runs[r].pc.Entering? && !s.runs[q].pc.Entering?
    requires s.runs[r].directory == s.runs[q].directory
    ensures r == q
  {
    hide Inv, GoodFiles;
    RunIsGood(w, s, r);
    RunIsGood(w, s, q);
  }

  lemma CountOne(s: State, t: State, directory: Path)
    requires GoodFiles(s) && s.submissions[directory] == 0 && Canonical(directory) in s.files
    requires t.files == s.files && t.reserved == s.reserved && t.submissions == s.submissions + multiset{directory}
    ensures GoodFiles(t)
  {
  }

  /** The submit call counts once; every other committed run is of another directory. */
  lemma SubmitStep(w: World, s: State, t: State, r: RunId)
    requires Inv(w, s) && r in s.runs && s.runs[r].pc.Submitting?
    requires forall q | q in t.runs && q != r :: q in s.runs && t.runs[q] == s.runs[q]
    requires forall p | p in s.locks && s.locks[p] != r :: p in t.locks && t.locks[p] == s.locks[p]
    requires t.files == s.files && t.reserved == s.reserved
    requires t.submissions == s.submissions + multiset{s.runs[r].directory}
    ensures Undisturbed(s, t, r) && GoodFiles(t)
  {
    hide Inv, GoodFiles, IsCanonical, Extends;
    RunIsGood(w, s, r);
    forall q | q in s.runs && q != r && Committed(s.runs[q].pc)
      ensures s.runs[q].directory != s.runs[r].directory
    {
      if s.runs[q].directory == s.runs[r].directory { Alone(w, s, r, q); }
    }
    CountOne(s, t, s.runs[r].directory);
    NoneLost(s, t);
  }

  lemma InvSubmit(w: World, s: State, t: State, r: RunId, answer: Option<BuildId>)
    requires Inv(w, s) && Submit(w, s, t, r, answer)
    ensures Inv(w, t)
  {
    hide Inv, GoodFiles, IsCanonical, Extends, Undisturbed;
    RunIsGood(w, s, r);
    SubmitStep(w, s, t, r);
    if answer.Some? && w.fingerprintOf(answer.value) == w.request(s.runs[r].directory).fingerprint {
      assert GoodRun(w, t, r);
    }
    InvAfter(w, s, t, r);
  }

  lemma InvReconcile(w: World, s: State, t: State, r: RunId, build: BuildId)
    requires Inv(w, s) && Reconcile(w, s, t, r, build)
    ensures Inv(w, t)
  {
    hide Undisturbed, Inv, GoodFiles, IsCanonical, Extends;
    RunIsGood(w, s, r);
    VerifiedMatches(w, s.runs[r].pc.saved, w.request(s.runs[r].directory).fingerprint, s.listing, build);
    SameFiles(s, t);
    QuietStep(s, t, r);
    InvAfter(w, s, t, r);
  }

  lemma VerifiedMatches(w: World, saved: Option<BuildId>, fingerprint: Fingerprint, listed: set<BuildId>,
                        build: BuildId)
    requires Verified(w, saved, fingerprint, listed, build)
    ensures w.fingerprintOf(build) == fingerprint
  {
    if saved.None? { assert build in set b | b in listed && w.fingerprintOf(b) == fingerprint; }
  }

  lemma InvBind(w: World, s: State, t: State, r: RunId)
    requires Inv(w, s) && Bind(w, s, t, r)
    ensures Inv(w, t)
  {
    hide Undisturbed, Inv, GoodFiles, IsCanonical, Extends, BuildFile, Canonical;
    RunIsGood(w, s, r);
    var run := s.runs[r];
    BuildFileIsNotCanonical(Canonical(run.directory));
    BuildFileIsNotCanonical(run.mirror);
    CanonicalIs(run.directory);
    var bound := StateDoc(w.request(run.directory).fingerprint, Some(run.pc.build));
    var path, doc := BindPath(run), BindDoc(s, run, bound);
    GoodSave(s, t, path, doc);
    SaveStep(s, t, r, path, doc);
    InvAfter(w, s, t, r);
  }

  ghost function BindPath(run: Run): Path
    requires run.pc.Binding?
  {
    if run.pc.stage == 0 then Canonical(run.directory)
    else if run.pc.stage == 1 then BuildFile(Canonical(run.directory))
    else if run.pc.stage == 2 then run.mirror else BuildFile(run.mirror)
  }

  ghost function BindDoc(s: State, run: Run, bound: Doc): Doc
    requires run.pc.Binding? && Canonical(run.directory) in s.files
  {
    if run.pc.stage == 0 || (run.pc.stage == 2 && run.pc.submitted) then bound
    else if run.pc.stage == 2 then s.files[Canonical(run.directory)]
    else OtherDoc
  }

  lemma InvRunStep(w: World, s: State, t: State, r: RunId)
    requires Inv(w, s) && RunStep(w, s, t, r)
    ensures Inv(w, t)
  {
    hide Inv, Stop, Lock, LookAtMirror, Adopt, Check, SkipReserve, LockExperiment, WriteLedger, Intend, Mirror, Bind;
    if Stop(s, t, r) { InvStop(w, s, t, r); }
    else if Lock(s, t, r) || SkipReserve(s, t, r) || LockExperiment(w, s, t, r) { InvQuiet(w, s, t, r); }
    else if LookAtMirror(w, s, t, r) { InvLook(w, s, t, r); }
    else if Adopt(s, t, r) { InvAdopt(w, s, t, r); }
    else if Check(w, s, t, r) { InvCheck(w, s, t, r); }
    else if WriteLedger(s, t, r) { InvWriteLedger(w, s, t, r); }
    else if Intend(w, s, t, r) || Mirror(w, s, t, r) { InvIntend(w, s, t, r); }
    else { InvBind(w, s, t, r); }
  }

  lemma InvStep(w: World, s: State, t: State)
    requires Inv(w, s) && Step(w, s, t)
    ensures Inv(w, t)
  {
    hide Inv, RunStep, Start, ReadLedger, Submit, Reconcile, Relist;
    if r, run :| Start(s, t, r, run) {
      InvStart(w, s, t, r, run);
    } else if r :| RunStep(w, s, t, r) {
      InvRunStep(w, s, t, r);
    } else if r, ledger :| ReadLedger(w, s, t, r, ledger) {
      InvReadLedger(w, s, t, r, ledger);
    } else if r, answer :| Submit(w, s, t, r, answer) {
      InvSubmit(w, s, t, r, answer);
    } else if r, build :| Reconcile(w, s, t, r, build) {
      InvReconcile(w, s, t, r, build);
    } else {
      InvRelist(w, s, t);
    }
  }

  lemma InvRelist(w: World, s: State, t: State)
    requires Inv(w, s) && Relist(s, t)
    ensures Inv(w, t)
  {
    hide IsCanonical, Canonical, Extends, SlotFits;
    SameReserved(s, t);
    SameFiles(s, t);
    hide GoodFiles, Reserved;
    forall r | r in t.runs ensures GoodRun(w, t, r) { assert GoodRun(w, s, r); }
  }

  lemma InvInitial(w: World, s: State)
    requires Initial(s)
    ensures Inv(w, s)
  {
  }

  lemma {:induction false} InvAlways(w: World, h: seq<State>, i: nat)
    requires History(w, h) && i < |h|
    ensures Inv(w, h[i])
  {
    hide Step, Inv, Initial;
    if i == 0 {
      InvInitial(w, h[0]);
    } else {
      InvAlways(w, h, i - 1);
      assert Step(w, h[i - 1], h[i - 1 + 1]);
      InvStep(w, h[i - 1], h[i]);
    }
  }

  // What is promised

  /** The submit call is made at most once for a prepared directory, over all runs, state files and crashes. */
  lemma SubmittedOnce(w: World, h: seq<State>, i: nat, directory: Path)
    requires History(w, h) && i < |h|
    ensures h[i].submissions[directory] <= 1
  {
    hide Step, GoodRun, Initial;
    InvAlways(w, h, i);
  }

  // Reservations are never given back

  lemma ReservedStep(w: World, s: State, t: State, path: Path)
    requires Inv(w, s) && Step(w, s, t)
    ensures Extends(Reserved(s, path), Reserved(t, path))
  {
    hide Inv, Start, ReadLedger, Submit, Reconcile, RunStep;
    ExtendsItself(Reserved(s, path));
    if r :| RunStep(w, s, t, r) {
      ReservedRunStep(w, s, t, r, path);
    } else {
      OtherReserved(w, s, t);
    }
  }

  lemma ExtendsItself(ledger: Ledger)
    ensures Extends(ledger, ledger)
  {
  }

  lemma OtherReserved(w: World, s: State, t: State)
    requires Step(w, s, t) && !exists r :: RunStep(w, s, t, r)
    ensures t.reserved == s.reserved
  {
    hide RunStep, Canonical, Reservable, Verified;
    if r, answer :| Submit(w, s, t, r, answer) { SubmitReserved(w, s, t, r, answer); }
  }

  lemma SubmitReserved(w: World, s: State, t: State, r: RunId, answer: Option<BuildId>)
    requires Submit(w, s, t, r, answer)
    ensures t.reserved == s.reserved
  {
  }

  lemma ReservedRunStep(w: World, s: State, t: State, r: RunId, path: Path)
    requires Inv(w, s) && RunStep(w, s, t, r)
    ensures Extends(Reserved(s, path), Reserved(t, path))
  {
    hide Inv, GoodFiles, Extends;
    ExtendsItself(Reserved(s, path));
    if WriteLedger(s, t, r) { RunIsGood(w, s, r); } else { QuietReserved(w, s, t, r); }
  }

  lemma QuietReserved(w: World, s: State, t: State, r: RunId)
    requires RunStep(w, s, t, r) && !WriteLedger(s, t, r)
    ensures t.reserved == s.reserved
  {
    hide Canonical, BuildFile;
  }

  lemma ExtendsOn(a: Ledger, b: Ledger, c: Ledger)
    requires Extends(a, b) && Extends(b, c)
    ensures Extends(a, c)
  {
  }

  lemma {:induction false} ReservedOn(w: World, h: seq<State>, i: nat, j: nat, path: Path)
    requires History(w, h) && i <= j < |h|
    ensures Extends(Reserved(h[i], path), Reserved(h[j], path))
    decreases j
  {
    hide Step, Inv, Initial, Extends, Reserved;
    if i == j {
      ExtendsItself(Reserved(h[i], path));
    } else {
      ReservedOn(w, h, i, j - 1, path);
      InvAlways(w, h, j - 1);
      assert Step(w, h[j - 1], h[j - 1 + 1]);
      ReservedStep(w, h[j - 1], h[j], path);
      ExtendsOn(Reserved(h[i], path), Reserved(h[j - 1], path), Reserved(h[j], path));
    }
  }

  /** A slot of an experiment, once reserved, keeps its entry: later ledgers of the same path only add to it, even when
      the file was overwritten in between. */
  lemma SlotsStayReserved(w: World, h: seq<State>, i: nat, j: nat, path: Path)
    requires History(w, h) && i <= j < |h|
    requires path in h[i].files && h[i].files[path].LedgerDoc? && path in h[j].files && h[j].files[path].LedgerDoc?
    ensures Extends(h[i].files[path].entries, h[j].files[path].entries)
  {
    hide Step, Initial, GoodRun, Extends;
    ReservedOn(w, h, i, j, path);
    InvAlways(w, h, i);
    InvAlways(w, h, j);
  }

  // Ledgers

  /** The last ledger written to a path, and any that a run is about to write there, are sound. */
  ghost predicate LedgerGood(s: State, path: Path) {
    && SoundLedger(Reserved(s, path))
    && forall r | r in s.runs && s.runs[r].pc.Consuming? && s.runs[r].experiment == Some(path) ::
              SoundLedger(s.runs[r].pc.ledger)
  }

  lemma SoundMore(ledger: Ledger, slot: Slot, q: Request)
    requires SoundLedger(ledger) && Reservable(ledger, slot, q) && SlotFits(slot, q.profile)
    ensures SoundLedger(ledger[slot := EntryOf(q)])
  {
  }

  lemma SoundPart(a: Ledger, b: Ledger)
    requires Extends(a, b) && SoundLedger(b)
    ensures SoundLedger(a)
  {
  }

  lemma LedgerReadStep(w: World, s: State, t: State, r: RunId, ledger: Ledger, path: Path)
    requires Inv(w, s) && ReadLedger(w, s, t, r, ledger) && LedgerGood(s, path)
    ensures LedgerGood(t, path)
  {
    hide Inv, GoodFiles, IsCanonical, SoundLedger, Extends, Reservable, Reserved;
    RunIsGood(w, s, r);
    LedgerRead(s, s.runs[r].experiment.value, ledger);
    SameReserved(s, t);
    if s.runs[r].experiment.value == path { SoundMore(ledger, s.runs[r].slot, w.request(s.runs[r].directory)); }
  }

  /** A step other than the reading of a ledger: other runs stay, and what the run adopts is what its mirror holds. */
  ghost predicate Moves(s: State, t: State, r: RunId) {
    && (forall q | q in t.runs && q != r :: q in s.runs && t.runs[q] == s.runs[q])
    && (r in t.runs ==> !t.runs[r].pc.Consuming?)
    && (r in t.runs && t.runs[r].pc.Adopting? ==>
          && r in s.runs && s.runs[r].mirror in s.files
          && t.runs[r].pc.mirrored == s.files[s.runs[r].mirror])
  }

  lemma MovesQuiet(s: State, t: State, r: RunId)
    requires Stop(s, t, r) || Lock(s, t, r) || SkipReserve(s, t, r)
    ensures Moves(s, t, r) && t.files == s.files
  {
    hide Canonical;
  }

  lemma MovesLook(w: World, s: State, t: State, r: RunId)
    requires LookAtMirror(w, s, t, r) || Check(w, s, t, r) || LockExperiment(w, s, t, r)
    ensures Moves(s, t, r) && t.files == s.files
  {
    hide Canonical;
  }

  lemma MovesSave(w: World, s: State, t: State, r: RunId)
    requires Adopt(s, t, r) || WriteLedger(s, t, r) || Intend(w, s, t, r) || Mirror(w, s, t, r)
    ensures Moves(s, t, r)
    ensures r in t.runs && !t.runs[r].pc.Adopting?
  {
    hide Canonical;
  }

  lemma MovesBind(w: World, s: State, t: State, r: RunId)
    requires Bind(w, s, t, r)
    ensures Moves(s, t, r)
    ensures r in t.runs && !t.runs[r].pc.Adopting?
  {
    hide Canonical, BuildFile;
  }

  lemma MovesSubmit(w: World, s: State, t: State, r: RunId, answer: Option<BuildId>)
    requires Submit(w, s, t, r, answer)
    ensures Moves(s, t, r) && t.files == s.files
  {
  }

  lemma MovesOther(w: World, s: State, t: State, r: RunId)
    requires (exists run :: Start(s, t, r, run)) || (exists build :: Reconcile(w, s, t, r, build)) 
    ensures Moves(s, t, r) && t.files == s.files && t.reserved == s.reserved
  {
    hide Verified;
  }

  lemma RunMoves(w: World, s: State, t: State, r: RunId)
    requires RunStep(w, s, t, r)
    ensures Moves(s, t, r)
  {
    hide Moves, Stop, Lock, LookAtMirror, Adopt, Check, SkipReserve, LockExperiment, WriteLedger, Intend, Mirror, Bind;
    if Stop(s, t, r) || Lock(s, t, r) || SkipReserve(s, t, r) {
      MovesQuiet(s, t, r);
    } else if LookAtMirror(w, s, t, r) || Check(w, s, t, r) || LockExperiment(w, s, t, r) {
      MovesLook(w, s, t, r);
    } else if Bind(w, s, t, r) {
      MovesBind(w, s, t, r);
    } else {
      MovesSave(w, s, t, r);
    }
  }

  lemma LedgerKept(s: State, t: State, r: RunId, path: Path)
    requires Moves(s, t, r) && t.reserved == s.reserved && LedgerGood(s, path)
    ensures LedgerGood(t, path)
  {
    hide SoundLedger;
  }

  lemma LedgerUnseen(s: State, t: State, path: Path)
    requires Relist(s, t) && LedgerGood(s, path)
    ensures LedgerGood(t, path)
  {
    hide SoundLedger;
  }

  lemma LedgerWritten(w: World, s: State, t: State, r: RunId, path: Path)
    requires WriteLedger(s, t, r) && LedgerGood(s, path)
    ensures LedgerGood(t, path)
  {
    hide SoundLedger;
  }

  lemma LedgerStep(w: World, s: State, t: State, path: Path)
    requires Inv(w, s) && Step(w, s, t) && LedgerGood(s, path)
    ensures LedgerGood(t, path)
  {
    hide Inv, LedgerGood, Moves, RunStep, Start, ReadLedger, Submit, Reconcile, Relist, WriteLedger;
    if r, run :| Start(s, t, r, run) {
      MovesOther(w, s, t, r);
      LedgerKept(s, t, r, path);
    } else if r :| RunStep(w, s, t, r) {
      LedgerRunStep(w, s, t, r, path);
    } else if r, ledger :| ReadLedger(w, s, t, r, ledger) {
      LedgerReadStep(w, s, t, r, ledger, path);
    } else if r, answer :| Submit(w, s, t, r, answer) {
      MovesSubmit(w, s, t, r, answer);
      SubmitReserved(w, s, t, r, answer);
      LedgerKept(s, t, r, path);
    } else if r, build :| Reconcile(w, s, t, r, build) {
      MovesOther(w, s, t, r);
      LedgerKept(s, t, r, path);
    } else {
      LedgerUnseen(s, t, path);
    }
  }

  lemma LedgerRunStep(w: World, s: State, t: State, r: RunId, path: Path)
    requires RunStep(w, s, t, r) && LedgerGood(s, path)
    ensures LedgerGood(t, path)
  {
    hide LedgerGood, Moves, RunStep, WriteLedger;
    if WriteLedger(s, t, r) {
      LedgerWritten(w, s, t, r, path);
    } else {
      QuietReserved(w, s, t, r);
      RunMoves(w, s, t, r);
      LedgerKept(s, t, r, path);
    }
  }

  lemma {:induction false} LedgerAlways(w: World, h: seq<State>, i: nat, path: Path)
    requires History(w, h) && i < |h| && SoundLedger(Reserved(h[0], path))
    ensures LedgerGood(h[i], path)
  {
    hide Step, Inv, SoundLedger;
    if i > 0 {
      hide LedgerGood;
      LedgerAlways(w, h, i - 1, path);
      InvAlways(w, h, i - 1);
      assert Step(w, h[i - 1], h[i - 1 + 1]);
      LedgerStep(w, h[i - 1], h[i], path);
    }
  }

  /** An experiment ledger has, at any time, distinct fingerprints, one common commit and base, and profiles that fit,
      exactly when the ledger that was at its path at the start had, if there was one. */
  lemma LedgersSound(w: World, h: seq<State>, i: nat, path: Path)
    requires History(w, h) && i < |h| && path in h[i].files && h[i].files[path].LedgerDoc?
    ensures SoundLedger(h[i].files[path].entries)
       <==> (path in h[0].files && h[0].files[path].LedgerDoc? ==> SoundLedger(h[0].files[path].entries))
  {
    hide Step, GoodRun, SoundLedger, Extends;
    InvAlways(w, h, i);
    ReservedOn(w, h, 0, i, path);
    EmptyIsSound();
    if SoundLedger(Reserved(h[0], path)) {
      LedgerAlways(w, h, i, path);
    } else if SoundLedger(h[i].files[path].entries) {
      SoundPart(Reserved(h[0], path), h[i].files[path].entries);
    }
  }

  lemma EmptyIsSound()
    ensures SoundLedger(map[])
  {
  }

  // Bindings

  /** A run that returns, returns a build of its own request, whatever files it started from. */
  lemma ReturnsItsBuild(w: World, h: seq<State>, i: nat, r: RunId)
    requires History(w, h) && i < |h| && r in h[i].runs && h[i].runs[r].pc.Finished?
    ensures w.fingerprintOf(h[i].runs[r].pc.build) == w.request(h[i].runs[r].directory).fingerprint
  {
    hide Step, Initial;
    InvAlways(w, h, i);
    assert GoodRun(w, h[i], r);
  }

  /** A state that binds the build of another request. */
  ghost predicate Misbound(w: World, doc: Doc) {
    doc.StateDoc? && doc.build.Some? && w.fingerprintOf(doc.build.value) != doc.fingerprint
  }

  ghost predicate InFiles(s: State, doc: Doc) { exists p :: p in s.files && s.files[p] == doc }

  /** Whatever binds the build of another request, in a file or in the hands of a run, was in a file at the start. */
  ghost predicate Traced(w: World, start: State, s: State) {
    && (forall p | p in s.files && Misbound(w, s.files[p]) :: InFiles(start, s.files[p]))
    && (forall r | r in s.runs && s.runs[r].pc.Adopting? && Misbound(w, s.runs[r].pc.mirrored) ::
          InFiles(start, s.runs[r].pc.mirrored))
  }

  lemma TracedSave(w: World, start: State, s: State, t: State, r: RunId, path: Path, doc: Doc)
    requires Traced(w, start, s) && Moves(s, t, r) && t.files == s.files[path := doc]
    requires Misbound(w, doc) ==> InFiles(start, doc)
    requires r in t.runs && !t.runs[r].pc.Adopting?
    ensures Traced(w, start, t)
  {
    hide Misbound, InFiles;
  }

  lemma TracedKept(w: World, start: State, s: State, t: State, r: RunId)
    requires Traced(w, start, s) && Moves(s, t, r) && t.files == s.files
    ensures Traced(w, start, t)
  {
    hide Misbound, InFiles;
  }

  lemma TracedBind(w: World, start: State, s: State, t: State, r: RunId)
    requires Inv(w, s) && Bind(w, s, t, r) && Traced(w, start, s)
    ensures Traced(w, start, t)
  {
    hide Inv, GoodFiles, Traced, Moves, InFiles, BuildFile, Canonical, IsCanonical, Extends;
    RunIsGood(w, s, r);
    var run := s.runs[r];
    var bound := StateDoc(w.request(run.directory).fingerprint, Some(run.pc.build));
    if Misbound(w, s.files[Canonical(run.directory)]) { TracedFile(w, start, s, Canonical(run.directory)); }
    MovesBind(w, s, t, r);
    TracedSave(w, start, s, t, r, BindPath(run), BindDoc(s, run, bound));
  }

  lemma TracedFile(w: World, start: State, s: State, path: Path)
    requires Traced(w, start, s) && path in s.files && Misbound(w, s.files[path])
    ensures InFiles(start, s.files[path])
  {
    hide Misbound, InFiles;
  }

  lemma TracedAdopt(w: World, start: State, s: State, t: State, r: RunId)
    requires Adopt(s, t, r) && Traced(w, start, s)
    ensures Traced(w, start, t)
  {
    hide InFiles, Misbound, Moves, Canonical;
    MovesSave(w, s, t, r);
    TracedSave(w, start, s, t, r, Canonical(s.runs[r].directory), s.runs[r].pc.mirrored);
  }

  lemma TracedLedger(w: World, start: State, s: State, t: State, r: RunId)
    requires WriteLedger(s, t, r) && Traced(w, start, s)
    ensures Traced(w, start, t)
  {
    hide InFiles, Moves, Traced;
    MovesSave(w, s, t, r);
    TracedSave(w, start, s, t, r, s.runs[r].experiment.value, LedgerDoc(s.runs[r].pc.ledger));
  }

  lemma TracedIntend(w: World, start: State, s: State, t: State, r: RunId)
    requires (Intend(w, s, t, r) || Mirror(w, s, t, r)) && Traced(w, start, s)
    ensures Traced(w, start, t)
  {
    hide InFiles, Moves, Traced, Canonical;
    MovesSave(w, s, t, r);
    var path := if Intend(w, s, t, r) then Canonical(s.runs[r].directory) else s.runs[r].mirror;
    TracedSave(w, start, s, t, r, path, StateDoc(w.request(s.runs[r].directory).fingerprint, None));
  }

  lemma TracedRunStep(w: World, start: State, s: State, t: State, r: RunId)
    requires Inv(w, s) && RunStep(w, s, t, r) && Traced(w, start, s)
    ensures Traced(w, start, t)
  {
    hide Inv, Traced, Moves, Stop, Lock, LookAtMirror, Adopt, Check, SkipReserve, LockExperiment, WriteLedger, Intend,
         Mirror, Bind;
    if Bind(w, s, t, r) {
      TracedBind(w, start, s, t, r);
    } else if Adopt(s, t, r) {
      TracedAdopt(w, start, s, t, r);
    } else if WriteLedger(s, t, r) {
      TracedLedger(w, start, s, t, r);
    } else if Intend(w, s, t, r) || Mirror(w, s, t, r) {
      TracedIntend(w, start, s, t, r);
    } else if Stop(s, t, r) || Lock(s, t, r) || SkipReserve(s, t, r) {
      MovesQuiet(s, t, r);
      TracedKept(w, start, s, t, r);
    } else {
      MovesLook(w, s, t, r);
      TracedKept(w, start, s, t, r);
    }
  }

  lemma TracedStep(w: World, start: State, s: State, t: State)
    requires Inv(w, s) && Step(w, s, t) && Traced(w, start, s)
    ensures Traced(w, start, t)
  {
    hide Inv, Traced, Moves, RunStep, Start, ReadLedger, Submit, Reconcile, Relist;
    if r, run :| Start(s, t, r, run) {
      MovesOther(w, s, t, r);
      TracedKept(w, start, s, t, r);
    } else if r :| RunStep(w, s, t, r) {
      TracedRunStep(w, start, s, t, r);
    } else if r, ledger :| ReadLedger(w, s, t, r, ledger) {
      TracedRead(w, start, s, t, r, ledger);
    } else if r, answer :| Submit(w, s, t, r, answer) {
      MovesSubmit(w, s, t, r, answer);
      TracedKept(w, start, s, t, r);
    } else if r, build :| Reconcile(w, s, t, r, build) {
      MovesOther(w, s, t, r);
      TracedKept(w, start, s, t, r);
    } else {
      TracedUnseen(w, start, s, t);
    }
  }

  lemma TracedUnseen(w: World, start: State, s: State, t: State)
    requires Relist(s, t) && Traced(w, start, s)
    ensures Traced(w, start, t)
  {
    hide InFiles, Misbound;
  }

  lemma TracedRead(w: World, start: State, s: State, t: State, r: RunId, ledger: Ledger)
    requires ReadLedger(w, s, t, r, ledger) && Traced(w, start, s)
    ensures Traced(w, start, t)
  {
    hide InFiles, Misbound, Reservable;
  }

  lemma {:induction false} TracedAlways(w: World, h: seq<State>, i: nat)
    requires History(w, h) && i < |h|
    ensures Traced(w, h[0], h[i])
  {
    hide Step, Inv, Misbound;
    if i > 0 {
      hide Traced;
      TracedAlways(w, h, i - 1);
      InvAlways(w, h, i - 1);
      assert Step(w, h[i - 1], h[i - 1 + 1]);
      TracedStep(w, h[0], h[i - 1], h[i]);
    }
  }

  /** A state file or mirror binds the build of another request, at any time, exactly when it is a copy of such a file
      that was there at the start: the runs themselves bind only builds they verified or found to be the only match. */
  lemma MisboundIsCopied(w: World, h: seq<State>, i: nat, path: Path)
    requires History(w, h) && i < |h| && path in h[i].files
    ensures Misbound(w, h[i].files[path])
       <==> exists p :: p in h[0].files && Misbound(w, h[0].files[p]) && h[0].files[p] == h[i].files[path]
  {
    hide Step, Misbound;
    TracedAlways(w, h, i);
  }

  /** So no file ever binds the build of another request exactly when none does at the start. */
  lemma BindsOnlyVerified(w: World, h: seq<State>)
    requires History(w, h)
    ensures (forall i: nat, p | i < |h| && p in h[i].files :: !Misbound(w, h[i].files[p]))
       <==> forall p | p in h[0].files :: !Misbound(w, h[0].files[p])
  {
    hide Step, Misbound, Initial;
    if forall p | p in h[0].files :: !Misbound(w, h[0].files[p]) {
      forall i: nat, p | i < |h| && p in h[i].files ensures !Misbound(w, h[i].files[p]) {
        MisboundIsCopied(w, h, i, p);
      }
    }
  }

  /** Such a copy is made before anything is verified: a mirror that binds the build of another request becomes the
      state file of a directory that had none. */
  lemma AdoptsUnverified(w: World, directory: Path, mirror: Path, build: BuildId) returns (h: seq<State>)
    requires mirror != Canonical(directory) && w.fingerprintOf(build) != w.request(directory).fingerprint
    ensures History(w, h) && Canonical(directory) !in h[0].files
    ensures var last := h[|h| - 1];
            && Canonical(directory) in last.files
            && last.files[Canonical(directory)] == StateDoc(w.request(directory).fingerprint, Some(build))
            && Misbound(w, last.files[Canonical(directory)])
  {
    hide Canonical, IsCanonical;
    var doc := StateDoc(w.request(directory).fingerprint, Some(build));
    var run := Run(directory, mirror, false, None, "", Entering);
    var s0 := State(map[mirror := doc], map[], multiset{}, map[], map[], {});
    var s1 := s0.(runs := map[0 := run]);
    var s2 := At(s1, 0, Locked).(locks := map[Canonical(directory) := 0]);
    var s3 := At(s2, 0, Adopting(doc));
    var s4 := Save(At(s3, 0, Checking), Canonical(directory), doc);
    AdoptionSteps(w, directory, mirror, doc, s0, s1, s2, s3, s4);
    h := [s0, s1, s2, s3, s4];
    FourSteps(w, h);
  }

  lemma AdoptionSteps(w: World, directory: Path, mirror: Path, doc: Doc, s0: State, s1: State, s2: State, s3: State,
                      s4: State)
    requires mirror != Canonical(directory) && doc.StateDoc? && doc.fingerprint == w.request(directory).fingerprint
    requires s0 == State(map[mirror := doc], map[], multiset{}, map[], map[], {})
    requires s1 == s0.(runs := map[0 := Run(directory, mirror, false, None, "", Entering)])
    requires s2 == At(s1, 0, Locked).(locks := map[Canonical(directory) := 0])
    requires s3 == At(s2, 0, Adopting(doc)) && s4 == Save(At(s3, 0, Checking), Canonical(directory), doc)
    ensures Initial(s0) && Step(w, s0, s1) && Step(w, s1, s2) && Step(w, s2, s3) && Step(w, s3, s4)
  {
    hide Canonical, Step, RunStep;
    assert Start(s0, s1, 0, Run(directory, mirror, false, None, "", Entering));
    Started(w, s0, s1, 0, Run(directory, mirror, false, None, "", Entering));
    assert Lock(s1, s2, 0);
    Moved(w, s1, s2, 0);
    assert LookAtMirror(w, s2, s3, 0);
    Moved(w, s2, s3, 0);
    assert Adopt(s3, s4, 0);
    Moved(w, s3, s4, 0);
  }

  lemma Started(w: World, s: State, t: State, r: RunId, run: Run)
    requires Start(s, t, r, run)
    ensures Step(w, s, t)
  {
    hide Start, RunStep;
  }

  lemma Moved(w: World, s: State, t: State, r: RunId)
    requires Lock(s, t, r) || LookAtMirror(w, s, t, r) || Adopt(s, t, r)
    ensures Step(w, s, t)
  {
    hide Lock, LookAtMirror, Adopt;
    assert RunStep(w, s, t, r) by { hide Stop, Check, SkipReserve, LockExperiment, WriteLedger, Intend, Mirror, Bind; }
    hide RunStep;
  }

  lemma FourSteps(w: World, h: seq<State>)
    requires |h| == 5 && Initial(h[0])
    requires Step(w, h[0], h[1]) && Step(w, h[1], h[2]) && Step(w, h[2], h[3]) && Step(w, h[3], h[4])
    ensures History(w, h)
  {
    hide Step, Initial;
  }

  // What each move of a run presupposes

  /** The step is one of this run's own. */
  ghost predicate OwnStep(w: World, s: State, t: State, r: RunId) {
    || RunStep(w, s, t, r)
    || (exists ledger :: ReadLedger(w, s, t, r, ledger))
    || (exists answer :: Submit(w, s, t, r, answer))
    || (exists build :: Reconcile(w, s, t, r, build))
  }

  lemma MovesRead(w: World, s: State, t: State, r: RunId, ledger: Ledger, q: RunId)
    requires ReadLedger(w, s, t, r, ledger) && q in s.runs && q in t.runs && q != r
    ensures t.runs[q] == s.runs[q]
  {
    hide Reservable;
  }

  /** Only its own steps move a run. */
  lemma OnlyItself(w: World, s: State, t: State, r: RunId)
    requires Step(w, s, t) && r in s.runs && r in t.runs && t.runs[r] != s.runs[r]
    ensures OwnStep(w, s, t, r)
  {
    hide RunStep, ReadLedger, Submit, Reconcile;
    if q, run :| Start(s, t, q, run) {
      assert false;
    } else if q :| RunStep(w, s, t, q) {
      RunMoves(w, s, t, q);
    } else if q, ledger :| ReadLedger(w, s, t, q, ledger) {
      if q != r { MovesRead(w, s, t, q, ledger, r); }
    } else if q, answer :| Submit(w, s, t, q, answer) {
      MovesSubmit(w, s, t, q, answer);
    } else if q, build :| Reconcile(w, s, t, q, build) {
      MovesOther(w, s, t, q);
    }
  }

  /** The step a run takes is decided by where it is. */
  lemma MoveOf(w: World, s: State, t: State, r: RunId)
    requires OwnStep(w, s, t, r) && r in s.runs && r in t.runs && !Stop(s, t, r)
    ensures s.runs[r].pc.Locked? ==> LookAtMirror(w, s, t, r)
    ensures s.runs[r].pc.Checking? ==> Check(w, s, t, r)
    ensures s.runs[r].pc.Reconciling? ==> exists build :: Reconcile(w, s, t, r, build)
    ensures s.runs[r].pc.Intending? ==> Intend(w, s, t, r)
    ensures s.runs[r].pc.Mirroring? ==> Mirror(w, s, t, r)
    ensures s.runs[r].pc.Binding? ==> Bind(w, s, t, r)
  {
    hide Canonical, BuildFile, Reservable, Verified, SlotFits, Stop;
  }

  lemma MovedOn(w: World, s: State, t: State, r: RunId)
    requires Step(w, s, t) && r in s.runs && r in t.runs && t.runs[r] != s.runs[r]
    ensures OwnStep(w, s, t, r) && !Stop(s, t, r)
  {
    hide Step, OwnStep;
    OnlyItself(w, s, t, r);
  }

  /** A run adopts a mirror, or goes on past one, only if it is a state of its own request, and adopts it only without a
      state file. */
  lemma AdoptsOnlyItsOwn(w: World, h: seq<State>, i: nat, r: RunId)
    requires History(w, h) && i < |h| - 1 && r in h[i].runs && r in h[i + 1].runs && h[i].runs[r].pc.Locked?
    requires h[i + 1].runs[r] != h[i].runs[r]
    ensures var run, fingerprint := h[i].runs[r], w.request(h[i].runs[r].directory).fingerprint;
            && (run.mirror in h[i].files ==>
                  h[i].files[run.mirror].StateDoc? && h[i].files[run.mirror].fingerprint == fingerprint)
            && (h[i + 1].runs[r].pc.Adopting? <==>
                  run.mirror in h[i].files && Canonical(run.directory) !in h[i].files)
            && (h[i + 1].runs[r].pc.Adopting? ==> h[i + 1].runs[r].pc.mirrored == h[i].files[run.mirror])
  {
    hide Step, OwnStep, Stop, Canonical;
    MovedOn(w, h[i], h[i + 1], r);
    MoveOf(w, h[i], h[i + 1], r);
  }

  /** It reconciles exactly the state file it finds, which has to be one of its own request; it goes on to submit only
      without one, and only if it was asked to. */
  lemma SubmitsOnlyWithoutState(w: World, h: seq<State>, i: nat, r: RunId)
    requires History(w, h) && i < |h| - 1 && r in h[i].runs && r in h[i + 1].runs && h[i].runs[r].pc.Checking?
    requires h[i + 1].runs[r] != h[i].runs[r]
    ensures var path := Canonical(h[i].runs[r].directory);
            if path in h[i].files then
              && h[i].files[path].StateDoc?
              && h[i].files[path].fingerprint == w.request(h[i].runs[r].directory).fingerprint
              && h[i + 1].runs[r].pc == Reconciling(h[i].files[path].build)
            else h[i].runs[r].submit && h[i + 1].runs[r].pc == Reserving
  {
    hide Step, OwnStep, Stop, Canonical;
    MovedOn(w, h[i], h[i + 1], r);
    MoveOf(w, h[i], h[i + 1], r);
  }

  /** A run that reconciles binds the saved build, if one was saved and carries its fingerprint, and otherwise the only
      listed build that does: with none or with several it does not move on. */
  lemma BindsUniquely(w: World, h: seq<State>, i: nat, r: RunId)
    requires History(w, h) && i < |h| - 1 && r in h[i].runs && r in h[i + 1].runs && h[i].runs[r].pc.Reconciling?
    requires h[i + 1].runs[r] != h[i].runs[r]
    ensures h[i + 1].runs[r].pc.Binding? && h[i + 1].files == h[i].files
    ensures var run, pc, saved := h[i].runs[r], h[i + 1].runs[r].pc, h[i].runs[r].pc.saved;
            var fingerprint := w.request(run.directory).fingerprint;
            && pc == Binding(pc.build, 0, false) && w.fingerprintOf(pc.build) == fingerprint
            && (saved.Some? ==> pc.build == saved.value)
            && (saved.None? ==>
                  && pc.build in h[i].listing
                  && forall b | b in h[i].listing && w.fingerprintOf(b) == fingerprint :: b == pc.build)
  {
    hide Step, OwnStep, Stop;
    MovedOn(w, h[i], h[i + 1], r);
    MoveOf(w, h[i], h[i + 1], r);
    var build :| Reconcile(w, h[i], h[i + 1], r, build);
    OnlyMatch(w, h[i].runs[r].pc.saved, w.request(h[i].runs[r].directory).fingerprint, h[i].listing, build);
  }

  lemma OnlyMatch(w: World, saved: Option<BuildId>, fingerprint: Fingerprint, listed: set<BuildId>, build: BuildId)
    requires Verified(w, saved, fingerprint, listed, build)
    ensures w.fingerprintOf(build) == fingerprint
    ensures if saved.Some? then build == saved.value
            else build in listed && forall b | b in listed && w.fingerprintOf(b) == fingerprint :: b == build
  {
    if saved.None? {
      var matches := set b | b in listed && w.fingerprintOf(b) == fingerprint;
      assert build in matches;
      forall b | b in listed && w.fingerprintOf(b) == fingerprint ensures b == build { assert b in matches; }
    }
  }

  /** Whenever the submit call is made, its run was asked to submit, its intent is on record, nothing was submitted for
      its directory before, and its slot of the experiment, if any, is reserved with the facts of its request. */
  lemma SubmitsPrepared(w: World, h: seq<State>, i: nat, r: RunId)
    requires History(w, h) && i < |h| && r in h[i].runs && h[i].runs[r].pc.Submitting?
    ensures var run, q := h[i].runs[r], w.request(h[i].runs[r].directory);
            && run.submit && Canonical(run.directory) in h[i].files && h[i].submissions[run.directory] == 0
            && (run.experiment.Some? ==>
                  && run.experiment.value in h[i].reserved && run.slot in h[i].reserved[run.experiment.value]
                  && h[i].reserved[run.experiment.value][run.slot]
                     == Entry(q.fingerprint, q.commit, q.base, q.profile))
  {
    hide Step, Initial, GoodFiles, Extends;
    InvAlways(w, h, i);
    RunIsGood(w, h[i], r);
  }

  /** What a run has on record as it moves on: its intent before the call, in both places, and then its build. */
  lemma RecordsItsBuild(w: World, h: seq<State>, i: nat, r: RunId)
    requires History(w, h) && i < |h| - 1 && r in h[i].runs && r in h[i + 1].runs && h[i + 1].runs[r] != h[i].runs[r]
    ensures var run, next, files := h[i].runs[r], h[i + 1].runs[r].pc, h[i + 1].files;
            var path, fingerprint := Canonical(run.directory), w.request(run.directory).fingerprint;
            && (run.pc.Intending? ==> next.Mirroring? && path in files && files[path] == StateDoc(fingerprint, None))
            && (run.pc.Mirroring? ==>
                  next.Submitting? && run.mirror in files && files[run.mirror] == StateDoc(fingerprint, None))
            && (run.pc.Binding? && run.pc.stage == 0 ==>
                  path in files && files[path] == StateDoc(fingerprint, Some(run.pc.build)))
            && (run.pc.Binding? && run.pc.stage == 2 ==>
                  && run.mirror in files
                  && if run.pc.submitted then files[run.mirror] == StateDoc(fingerprint, Some(run.pc.build))
                     else path in h[i].files && files[run.mirror] == h[i].files[path])
            && (run.pc.Binding? ==>
                  next == if run.pc.stage < 3 then Binding(run.pc.build, run.pc.stage + 1, run.pc.submitted)
                          else Finished(run.pc.build))
  {
    hide Step, OwnStep, Stop, Canonical, BuildFile;
    MovedOn(w, h[i], h[i + 1], r);
    MoveOf(w, h[i], h[i + 1], r);
  }

  // A run that submits

  /** Only run 0 is there, and the cloud lists nothing. */
  ghost function Single(files: map<Path, Doc>, locks: map<Path, RunId>, submissions: multiset<Path>, run: Run,
                        reserved: map<Path, Ledger>): State
  {
    State(files, locks, submissions, map[0 := run], reserved, {})
  }

  ghost predicate Stepwise(w: World, h: seq<State>) {
    forall i | 0 <= i < |h| - 1 :: Step(w, h[i], h[i + 1])
  }

  lemma Joined(w: World, a: seq<State>, b: seq<State>)
    requires Stepwise(w, a) && Stepwise(w, b) && a != [] && b != [] && a[|a| - 1] == b[0]
    ensures Stepwise(w, a + b[1..])
  {
    hide Step;
    var h := a + b[1..];
    forall i | 0 <= i < |h| - 1 ensures Step(w, h[i], h[i + 1]) {
      if i < |a| - 1 {
        assert Step(w, a[i], a[i + 1]);
      } else {
        var k := i - (|a| - 1);
        assert h[i] == b[k] && h[i + 1] == b[k + 1];
        assert Step(w, b[k], b[k + 1]);
      }
    }
  }

  lemma AtSingle(s: State, run: Run, pc: Pc)
    requires s.runs == map[0 := run]
    ensures At(s, 0, pc) == s.(runs := map[0 := run.(pc := pc)])
  {
  }

  lemma ByRun(w: World, s: State, t: State)
    requires || Lock(s, t, 0) || LookAtMirror(w, s, t, 0) || Check(w, s, t, 0) || LockExperiment(w, s, t, 0)
             || WriteLedger(s, t, 0) || Intend(w, s, t, 0) || Mirror(w, s, t, 0) || Bind(w, s, t, 0)
    ensures Step(w, s, t)
  {
    hide Start, ReadLedger, Submit, Reconcile, Relist, Lock, LookAtMirror, Check, LockExperiment, WriteLedger, Intend,
         Mirror, Bind, Stop, Adopt, SkipReserve;
    assert RunStep(w, s, t, 0);
  }

  lemma ByReading(w: World, s: State, t: State, ledger: Ledger)
    requires ReadLedger(w, s, t, 0, ledger)
    ensures Step(w, s, t)
  {
    hide Start, ReadLedger, Submit, Reconcile, Relist, RunStep;
  }

  lemma BySubmitting(w: World, s: State, t: State, answer: Option<BuildId>)
    requires Submit(w, s, t, 0, answer)
    ensures Step(w, s, t)
  {
    hide Start, ReadLedger, Submit, Reconcile, Relist, RunStep;
  }

  /** What the run of the witness is asked to do. */
  ghost predicate Asked(w: World, run: Run) {
    && run.submit && run.pc == Entering && run.experiment.Some?
    && run.mirror != Canonical(run.directory) && run.experiment.value != Canonical(run.directory)
    && SlotFits(run.slot, w.request(run.directory).profile)
  }

  /** It enters, finds neither a mirror nor a state, and locks its experiment. */
  lemma Enters(w: World, run: Run) returns (h: seq<State>)
    requires Asked(w, run)
    ensures |h| == 6 && History(w, h)
    ensures h[5] == Single(map[], map[Canonical(run.directory) := 0, run.experiment.value := 0], multiset{},
                           run.(pc := Reading), map[])
  {
    hide Canonical, SlotFits;
    var path := Canonical(run.directory);
    var s0 := State(map[], map[], multiset{}, map[], map[], {});
    var s1 := Single(map[], map[], multiset{}, run, map[]);
    var s2 := Single(map[], map[path := 0], multiset{}, run.(pc := Locked), map[]);
    var s3 := Single(map[], map[path := 0], multiset{}, run.(pc := Checking), map[]);
    var s4 := Single(map[], map[path := 0], multiset{}, run.(pc := Reserving), map[]);
    var s5 := Single(map[], map[path := 0, run.experiment.value := 0], multiset{}, run.(pc := Reading), map[]);
    AtSingle(s1, run, Locked);
    AtSingle(s2, run.(pc := Locked), Checking);
    AtSingle(s3, run.(pc := Checking), Reserving);
    AtSingle(s4, run.(pc := Reserving), Reading);
    hide At, Step, RunStep;
    assert Start(s0, s1, 0, run);
    Started(w, s0, s1, 0, run);
    assert Lock(s1, s2, 0);
    ByRun(w, s1, s2);
    assert LookAtMirror(w, s2, s3, 0);
    ByRun(w, s2, s3);
    assert Check(w, s3, s4, 0);
    ByRun(w, s3, s4);
    assert LockExperiment(w, s4, s5, 0);
    ByRun(w, s4, s5);
    h := [s0, s1, s2, s3, s4, s5];
  }

  /** It reserves its slot. */
  lemma Reserves(w: World, run: Run, s: State) returns (h: seq<State>)
    requires Asked(w, run)
    requires s == Single(map[], map[Canonical(run.directory) := 0, run.experiment.value := 0], multiset{},
                         run.(pc := Reading), map[])
    ensures |h| == 3 && h[0] == s && Stepwise(w, h)
    ensures h[2].runs == map[0 := run.(pc := Intending)] && h[2].submissions == multiset{}
  {
    hide Canonical, SlotFits;
    var ledger: Ledger := map[run.slot := EntryOf(w.request(run.directory))];
    var s1 := s.(runs := map[0 := run.(pc := Consuming(ledger))]);
    var s2 := Single(map[run.experiment.value := LedgerDoc(ledger)], s.locks - {run.experiment.value}, multiset{},
                     run.(pc := Intending), map[run.experiment.value := ledger]);
    AtSingle(s, run.(pc := Reading), Consuming(ledger));
    AtSingle(s1, run.(pc := Consuming(ledger)), Intending);
    hide At, Step, RunStep;
    assert ReadLedger(w, s, s1, 0, map[]);
    ByReading(w, s, s1, map[]);
    assert WriteLedger(s1, s2, 0);
    ByRun(w, s1, s2);
    h := [s, s1, s2];
  }

  /** It puts its intent on record in both places. */
  lemma Intends(w: World, run: Run, s: State) returns (h: seq<State>)
    requires s.runs == map[0 := run.(pc := Intending)] && s.submissions == multiset{}
    ensures |h| == 3 && h[0] == s && Stepwise(w, h)
    ensures h[2].runs == map[0 := run.(pc := Submitting)] && h[2].submissions == multiset{}
  {
    hide Canonical;
    var intent := StateDoc(w.request(run.directory).fingerprint, None);
    var s1 := s.(files := s.files[Canonical(run.directory) := intent], runs := map[0 := run.(pc := Mirroring)]);
    var s2 := s1.(files := s1.files[run.mirror := intent], runs := map[0 := run.(pc := Submitting)]);
    AtSingle(s, run.(pc := Intending), Mirroring);
    AtSingle(s1, run.(pc := Mirroring), Submitting);
    hide At, Step, RunStep;
    assert Intend(w, s, s1, 0);
    ByRun(w, s, s1);
    assert Mirror(w, s1, s2, 0);
    ByRun(w, s1, s2);
    h := [s, s1, s2];
  }

  lemma BindsOnce(w: World, s: State, run: Run, build: BuildId, stage: nat) returns (t: State)
    requires s.runs == map[0 := run.(pc := Binding(build, stage, true))] && stage < 4
    ensures Step(w, s, t) && t.submissions == s.submissions
    ensures t.runs == map[0 := run.(pc := if stage < 3 then Binding(build, stage + 1, true) else Finished(build))]
  {
    hide Canonical, BuildFile;
    var bound := StateDoc(w.request(run.directory).fingerprint, Some(build));
    var next := if stage < 3 then Binding(build, stage + 1, true) else Finished(build);
    AtSingle(s, run.(pc := Binding(build, stage, true)), next);
    var path := if stage == 0 then Canonical(run.directory) else if stage == 1 then BuildFile(Canonical(run.directory))
                else if stage == 2 then run.mirror else BuildFile(run.mirror);
    t := Save(At(s, 0, next), path, if stage == 0 || stage == 2 then bound else OtherDoc);
    assert Bind(w, s, t, 0);
    hide Step, Bind;
    ByRun(w, s, t);
  }

  /** The call is made, and answered with a build. */
  lemma SubmitsOnce(w: World, run: Run, s: State, build: BuildId) returns (t: State)
    requires s.runs == map[0 := run.(pc := Submitting)] && s.submissions == multiset{}
    requires w.fingerprintOf(build) == w.request(run.directory).fingerprint
    ensures Step(w, s, t)
    ensures t.runs == map[0 := run.(pc := Binding(build, 0, true))] && t.submissions == multiset{run.directory}
  {
    t := s.(runs := map[0 := run.(pc := Binding(build, 0, true))], submissions := multiset{run.directory});
    var called := s.(submissions := s.submissions + multiset{run.directory});
    AtSingle(called, run.(pc := Submitting), Binding(build, 0, true));
    assert Submit(w, s, t, 0, Some(build));
    hide Step, Submit;
    BySubmitting(w, s, t, Some(build));
  }

  /** The call is made and answered with a build of the request, which the run binds and returns. */
  lemma Submits(w: World, run: Run, s: State, build: BuildId) returns (h: seq<State>)
    requires s.runs == map[0 := run.(pc := Submitting)] && s.submissions == multiset{}
    requires w.fingerprintOf(build) == w.request(run.directory).fingerprint
    ensures |h| == 6 && h[0] == s && Stepwise(w, h)
    ensures h[5].runs == map[0 := run.(pc := Finished(build))] && h[5].submissions == multiset{run.directory}
  {
    hide Step;
    var s1 := SubmitsOnce(w, run, s, build);
    var s2 := BindsOnce(w, s1, run, build, 0);
    var s3 := BindsOnce(w, s2, run, build, 1);
    var s4 := BindsOnce(w, s3, run, build, 2);
    var s5 := BindsOnce(w, s4, run, build, 3);
    h := [s, s1, s2, s3, s4, s5];
  }

  /** The whole protocol goes through: a run that is asked to submit for an experiment, with nothing on record, submits
      once and returns the build. */
  lemma SubmitsAndReturns(w: World, run: Run, build: BuildId) returns (h: seq<State>)
    requires Asked(w, run) && w.fingerprintOf(build) == w.request(run.directory).fingerprint
    ensures History(w, h)
    ensures h[|h| - 1].runs == map[0 := run.(pc := Finished(build))]
    ensures h[|h| - 1].submissions[run.directory] == 1
  {
    hide Step, Asked, Single;
    var a := Enters(w, run);
    var b := Reserves(w, run, a[5]);
    var c := Intends(w, run, b[2]);
    var d := Submits(w, run, c[2], build);
    Joined(w, a, b);
    Joined(w, a + b[1..], c);
    Joined(w, a + b[1..] + c[1..], d);
    h := a + b[1..] + c[1..] + d[1..];
    assert h[|h| - 1] == d[5];
  }

  /** And a run that reconciles moves on, with the saved build or with the only match. */
  lemma ReconcilesIfUnique(w: World, s: State, r: RunId, build: BuildId)
    requires r in s.runs && s.runs[r].pc.Reconciling?
    requires var fingerprint := w.request(s.runs[r].directory).fingerprint;
             && w.fingerprintOf(build) == fingerprint
             && if s.runs[r].pc.saved.Some? then build == s.runs[r].pc.saved.value
                else build in s.listing
                     && forall b | b in s.listing && w.fingerprintOf(b) == fingerprint :: b == build
    ensures Step(w, s, At(s, r, Binding(build, 0, false)))
  {
    hide Start, RunStep, ReadLedger, Submit, Relist, Canonical;
    var fingerprint := w.request(s.runs[r].directory).fingerprint;
    if s.runs[r].pc.saved.None? {
      assert (set b | b in s.listing && w.fingerprintOf(b) == fingerprint) == {build};
    }
    assert Reconcile(w, s, At(s, r, Binding(build, 0, false)), r, build);
  }
}
