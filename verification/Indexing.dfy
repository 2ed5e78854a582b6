/** Background indexing of snapshots: one job per snapshot behind a shared map of
    progress handles, all rows of a snapshot in one transaction, failures that
    leave nothing (api/internal/catalog/indexprogress.go). */
module Indexing {
  import opened Wrappers

  datatype Entry = Entry(path: string, size: nat, mtime: int, isDir: bool)

  /** What rustic lists for each snapshot; snapshots do not change. */
  type Listing = map<nat, seq<Entry>>

  function Entries(listing: Listing, snapshot: nat): seq<Entry> {
    if snapshot in listing then listing[snapshot] else []
  }

  datatype Stage = Discovering | Indexed

  /** A progress handle, and the snapshot it was made for. */
  datatype Handle = Handle(snapshot: nat, stage: Stage, done: nat, total: nat, failed: bool, finished: bool)

  /** What a job does next; Listing and inserting know how far they are. */
  datatype Step =
    | Check
    | List(n: nat)
    | Insert(n: nat)      // n rows are in the open transaction
    | Drop                // failed: take the entry out of the map
    | Finish(failed: bool)

  datatype Job = Job(snapshot: nat, step: Step)

  /** file_index, the shared map, the handles and the jobs of this process; a
      job and its handle have the same name. */
  datatype State = State(
    rows: map<nat, seq<Entry>>,
    prog: map<nat, nat>,
    handles: map<nat, Handle>,
    jobs: map<nat, Job>,
    next: nat
  )

  const START := State(map[], map[], map[], map[], 0)

  function Stored(s: State, snapshot: nat): seq<Entry> {
    if snapshot in s.rows then s.rows[snapshot] else []
  }

  datatype Event =
    | Ensured(snapshot: nat, total: nat)
    | Checked(h: nat, ok: bool)
    | Listed(h: nat)                     // one more entry
    | ListEnded(h: nat, ok: bool)        // and the transaction begun
    | Inserted(h: nat, ok: bool)
    | Committed(h: nat, ok: bool)
    | Dropped(h: nat)
    | Finished(h: nat)
    | Crashed

  predicate At(s: State, h: nat) {
    h in s.jobs && h in s.handles
  }

  predicate Enabled(listing: Listing, s: State, e: Event) {
    match e
    case Ensured(_, _) => true
    case Checked(h, _) => At(s, h) && s.jobs[h].step.Check?
    case Listed(h) => At(s, h) && s.jobs[h].step.List? && s.jobs[h].step.n < |Entries(listing, s.jobs[h].snapshot)|
    case ListEnded(h, ok) => At(s, h) && s.jobs[h].step.List?
                             && (ok ==> s.jobs[h].step.n == |Entries(listing, s.jobs[h].snapshot)|)
    case Inserted(h, _) => At(s, h) && s.jobs[h].step.Insert?
      && s.jobs[h].step.n < |Entries(listing, s.jobs[h].snapshot)|
    case Committed(h, _) => At(s, h) && s.jobs[h].step.Insert?
      && s.jobs[h].step.n == |Entries(listing, s.jobs[h].snapshot)|
    case Dropped(h) => At(s, h) && s.jobs[h].step.Drop?
    case Finished(h) => At(s, h) && s.jobs[h].step.Finish?
    case Crashed => true
  }

  function Move(s: State, h: nat, step: Step): State
    requires h in s.jobs
  {
    s.(jobs := s.jobs[h := s.jobs[h].(step := step)])
  }

  function SetProgress(s: State, h: nat, stage: Stage, done: nat): State
    requires h in s.handles
  {
    s.(handles := s.handles[h := s.handles[h].(stage := stage, done := done)])
  }

  function Apply(listing: Listing, s: State, e: Event): State
    requires Enabled(listing, s, e)
  {
    match e
    case Ensured(snapshot, total) =>
      if snapshot in s.prog then s
      else s.(prog := s.prog[snapshot := s.next], next := s.next + 1,
              handles := s.handles[s.next := Handle(snapshot, Discovering, 0, total, false, false)],
              jobs := s.jobs[s.next := Job(snapshot, Check)])
    case Checked(h, ok) =>
      Move(s, h, if !ok then Drop else if Stored(s, s.jobs[h].snapshot) != [] then Finish(false) else List(0))
    case Listed(h) =>
      var n := s.jobs[h].step.n + 1;
      SetProgress(Move(s, h, List(n)), h, Discovering, n)
    case ListEnded(h, ok) => Move(s, h, if ok then Insert(0) else Drop)
    case Inserted(h, ok) =>
      var n := s.jobs[h].step.n;
      if !ok then Move(s, h, Drop)
      else if n % 1000 == 0 then SetProgress(Move(s, h, Insert(n + 1)), h, Indexed, n)
      else Move(s, h, Insert(n + 1))
    case Committed(h, ok) =>
      var job := s.jobs[h];
      if !ok then Move(s, h, Drop)
      else
        SetProgress(Move(s, h, Finish(false)), h, Indexed, job.step.n).(
          rows := s.rows[job.snapshot := Stored(s, job.snapshot) + Entries(listing, job.snapshot)])
    case Dropped(h) => Move(s, h, Finish(true)).(prog := s.prog - {s.jobs[h].snapshot})
    case Finished(h) =>
      s.(jobs := s.jobs - {h},
        handles := s.handles[h := s.handles[h].(failed := s.jobs[h].step.failed, finished := true)])
    case Crashed => s.(prog := map[], handles := map[], jobs := map[])
  }

  ghost predicate Run(listing: Listing, s: State, es: seq<Event>)
    decreases |es|
  {
    es == [] || (Enabled(listing, s, es[0]) && Run(listing, Apply(listing, s, es[0]), es[1..]))
  }

  function Final(listing: Listing, s: State, es: seq<Event>): State
    requires Run(listing, s, es)
    decreases |es|
  {
    if es == [] then s else Final(listing, Apply(listing, s, es[0]), es[1..])
  }

  ghost predicate Reaches(listing: Listing, s: State, n: State) {
    exists es :: Run(listing, s, es) && Final(listing, s, es) == n
  }

  // ---- The invariant ---------------------------------------------------------------------

  /** A job that still works for its snapshot; a failed one that has left the
      map only has to say so. */
  predicate Working(job: Job) {
    job.step != Finish(true)
  }

  predicate StepFits(step: Step, stored: seq<Entry>, entries: seq<Entry>) {
    match step
    case List(n) => stored == [] && n <= |entries|
    case Insert(n) => stored == [] && n <= |entries|
    case Finish(failed) => failed || stored == entries
    case _ => true
  }

  ghost predicate JobOk(listing: Listing, s: State, h: nat) {
    h in s.jobs && var job := s.jobs[h];
    && h in s.handles && s.handles[h].snapshot == job.snapshot && !s.handles[h].finished
    && (Working(job) ==> job.snapshot in s.prog && s.prog[job.snapshot] == h)
    && StepFits(job.step, Stored(s, job.snapshot), Entries(listing, job.snapshot))
  }

  ghost predicate MappedOk(s: State, snapshot: nat) {
    snapshot in s.prog && var h := s.prog[snapshot];
    && h in s.handles && s.handles[h].snapshot == snapshot
    && ((h in s.jobs && Working(s.jobs[h])) || (s.handles[h].finished && !s.handles[h].failed))
  }

  ghost predicate HandleOk(listing: Listing, s: State, h: nat) {
    h in s.handles && var p := s.handles[h];
    && h < s.next
    && (!p.finished ==> h in s.jobs)
    && (p.finished && !p.failed ==> Stored(s, p.snapshot) == Entries(listing, p.snapshot))
  }

  /** None or exactly one full listing. */
  predicate RowsOk(listing: Listing, s: State, snapshot: nat) {
    Stored(s, snapshot) == [] || Stored(s, snapshot) == Entries(listing, snapshot)
  }

  ghost predicate Good(listing: Listing, s: State) {
    && (forall h {:trigger s.jobs[h]} :: h in s.jobs ==> JobOk(listing, s, h))
    && (forall snapshot {:trigger s.prog[snapshot]} :: snapshot in s.prog ==> MappedOk(s, snapshot))
    && (forall h {:trigger s.handles[h]} :: h in s.handles ==> HandleOk(listing, s, h))
    && (forall snapshot {:trigger Stored(s, snapshot)} :: RowsOk(listing, s, snapshot))
  }

  /** Stored rows stay. */
  ghost predicate Lasts(s: State, n: State) {
    forall snapshot {:trigger Stored(n, snapshot)} :: Stored(s, snapshot) != [] ==>
      Stored(n, snapshot) == Stored(s, snapshot)
  }

  lemma RowsAfter(listing: Listing, s: State, e: Event, snapshot: nat)
    requires Good(listing, s) && Enabled(listing, s, e)
    ensures var was, now := Stored(s, snapshot), Stored(Apply(listing, s, e), snapshot);
      if e.Committed? && e.ok && s.jobs[e.h].snapshot == snapshot
      then was == [] && now == Entries(listing, snapshot)
      else now == was
  {
    hide HandleOk, MappedOk;
    if e.Committed? { assert JobOk(listing, s, e.h); }
  }

  lemma NextIsNew(listing: Listing, s: State)
    ensures Good(listing, s) ==> s.next !in s.handles && s.next !in s.jobs
  {
    assert Good(listing, s) ==> forall h :: h in s.jobs ==> JobOk(listing, s, h);
    assert Good(listing, s) ==> forall h :: h in s.handles ==> HandleOk(listing, s, h);
  }

  function JobOf(e: Event): Option<nat> {
    match e
    case Ensured(_, _) => None
    case Crashed => None
    case _ => Some(e.h)
  }

  /** Only its own events touch a job and its handle, and only Dropped takes
      an entry out of the map. */
  lemma Untouched(listing: Listing, s: State, e: Event, h: nat)
    requires Enabled(listing, s, e) && e != Crashed && JobOf(e) != Some(h) && h != s.next
    ensures h in Apply(listing, s, e).jobs <==> h in s.jobs
    ensures h in Apply(listing, s, e).handles <==> h in s.handles
    ensures h in s.jobs ==> Apply(listing, s, e).jobs[h] == s.jobs[h]
    ensures h in s.handles ==> Apply(listing, s, e).handles[h] == s.handles[h]
  {
    hide Stored, Entries;
  }

  lemma EntriesStay(listing: Listing, s: State, e: Event, snapshot: nat)
    requires Enabled(listing, s, e) && e != Crashed && snapshot in s.prog
    ensures !(e.Dropped? && s.jobs[e.h].snapshot == snapshot) ==>
      snapshot in Apply(listing, s, e).prog && Apply(listing, s, e).prog[snapshot] == s.prog[snapshot]
    ensures e.Dropped? && s.jobs[e.h].snapshot == snapshot ==> snapshot !in Apply(listing, s, e).prog
  {
    hide Stored, Entries;
  }

  lemma OtherJob(listing: Listing, s: State, e: Event, h: nat)
    requires Good(listing, s) && Enabled(listing, s, e) && h in s.jobs && JobOf(e) != Some(h) && e != Crashed
    ensures JobOk(listing, Apply(listing, s, e), h)
  {
    NextIsNew(listing, s);
    Untouched(listing, s, e, h);
    RowsAfter(listing, s, e, s.jobs[h].snapshot);
    assert JobOk(listing, s, h);
    if e.Committed? || e.Dropped? {
      assert JobOk(listing, s, e.h);
      assert s.jobs[h].snapshot == s.jobs[e.h].snapshot ==> !Working(s.jobs[h]);
    }
    if Working(s.jobs[h]) {
      EntriesStay(listing, s, e, s.jobs[h].snapshot);
    }
    hide Good, Apply, Stored, Entries;
  }

  lemma MovedJob(listing: Listing, s: State, e: Event, h: nat)
    requires Good(listing, s) && Enabled(listing, s, e) && JobOf(e) == Some(h) && h in Apply(listing, s, e).jobs
    ensures JobOk(listing, Apply(listing, s, e), h)
  {
    RowsAfter(listing, s, e, s.jobs[h].snapshot);
    assert JobOk(listing, s, h) && RowsOk(listing, s, s.jobs[h].snapshot);
    hide Good, Stored, Entries;
  }

  lemma StepJobs(listing: Listing, s: State, e: Event, h: nat)
    requires Good(listing, s) && Enabled(listing, s, e) && h in Apply(listing, s, e).jobs
    ensures JobOk(listing, Apply(listing, s, e), h)
  {
    if JobOf(e) == Some(h) {
      MovedJob(listing, s, e, h);
    } else if h in s.jobs && e != Crashed {
      OtherJob(listing, s, e, h);
    } else {
      NextIsNew(listing, s);
      hide Good, Stored, Entries;
    }
  }

  /** The entry of the job that moves. */
  lemma OwnEntry(listing: Listing, s: State, e: Event, h: nat)
    requires Good(listing, s) && Enabled(listing, s, e) && JobOf(e) == Some(h) && h in s.jobs
    requires s.jobs[h].snapshot in s.prog && s.prog[s.jobs[h].snapshot] == h && !e.Dropped?
    ensures MappedOk(Apply(listing, s, e), s.jobs[h].snapshot)
  {
    assert MappedOk(s, s.jobs[h].snapshot) && JobOk(listing, s, h);
    hide Good, Stored, Entries, StepFits;
  }

  lemma StepMapped(listing: Listing, s: State, e: Event, snapshot: nat)
    requires Good(listing, s) && Enabled(listing, s, e) && snapshot in Apply(listing, s, e).prog
    ensures MappedOk(Apply(listing, s, e), snapshot)
  {
    hide Stored, Entries, StepFits;
    NextIsNew(listing, s);
    if snapshot in s.prog && e != Crashed {
      var h := s.prog[snapshot];
      assert MappedOk(s, snapshot) && HandleOk(listing, s, h);
      assert h in s.jobs ==> JobOk(listing, s, h);
      EntriesStay(listing, s, e, snapshot);
      hide Good, Apply;
      if JobOf(e) == Some(h) {
        OwnEntry(listing, s, e, h);
      } else {
        Untouched(listing, s, e, h);
      }
    } else {
      hide Good, Enabled;
    }
  }

  lemma StepHandles(listing: Listing, s: State, e: Event, h: nat)
    requires Good(listing, s) && Enabled(listing, s, e) && h in Apply(listing, s, e).handles
    ensures HandleOk(listing, Apply(listing, s, e), h)
  {
    hide MappedOk, Stored, Entries;
    var n := Apply(listing, s, e);
    RowsAfter(listing, s, e, n.handles[h].snapshot);
    if h in s.handles {
      assert HandleOk(listing, s, h);
      if h in s.jobs {
        assert JobOk(listing, s, h);
      }
      NextIsNew(listing, s);
    }
    hide Good;
  }

  lemma StepGood(listing: Listing, s: State, e: Event)
    requires Good(listing, s) && Enabled(listing, s, e)
    ensures Good(listing, Apply(listing, s, e)) && Lasts(s, Apply(listing, s, e))
  {
    hide Apply, Enabled, JobOk, MappedOk, HandleOk, Stored;
    var n := Apply(listing, s, e);
    forall h | h in n.jobs ensures JobOk(listing, n, h) {
      StepJobs(listing, s, e, h);
    }
    forall snapshot | snapshot in n.prog ensures MappedOk(n, snapshot) {
      StepMapped(listing, s, e, snapshot);
    }
    forall h | h in n.handles ensures HandleOk(listing, n, h) {
      StepHandles(listing, s, e, h);
    }
    forall snapshot
      ensures RowsOk(listing, n, snapshot)
      ensures Stored(s, snapshot) != [] ==> Stored(n, snapshot) == Stored(s, snapshot)
    {
      assert RowsOk(listing, s, snapshot);
      RowsAfter(listing, s, e, snapshot);
    }
  }

  // ---- Whole runs -------------------------------------------------------------------------------

  lemma LastsOn(a: State, b: State, c: State)
    ensures Lasts(a, b) && Lasts(b, c) ==> Lasts(a, c)
  {
    hide Stored;
    forall snapshot | Lasts(a, b) && Lasts(b, c) && Stored(a, snapshot) != []
      ensures Stored(c, snapshot) == Stored(a, snapshot)
    {
      assert Stored(b, snapshot) == Stored(a, snapshot);
    }
  }

  lemma {:induction false} RunGood(listing: Listing, s: State, es: seq<Event>)
    requires Good(listing, s) && Run(listing, s, es)
    ensures Good(listing, Final(listing, s, es)) && Lasts(s, Final(listing, s, es))
    decreases |es|
  {
    if es != [] {
      hide Good, Lasts, Apply, Enabled;
      var n := Apply(listing, s, es[0]);
      StepGood(listing, s, es[0]);
      RunGood(listing, n, es[1..]);
      LastsOn(s, n, Final(listing, s, es));
    }
  }

  lemma ReachableGood(listing: Listing, s: State)
    requires Reaches(listing, START, s)
    ensures Good(listing, s)
  {
    hide Apply, Enabled;
    assert Good(listing, START) by {
      forall snapshot ensures RowsOk(listing, START, snapshot) {}
    }
    var es :| Run(listing, START, es) && Final(listing, START, es) == s;
    RunGood(listing, START, es);
  }

  /** At most one job works for a snapshot at any time, and its handle is the
      one the map gives to callers. */
  lemma OneJobEach(listing: Listing, s: State, h: nat, k: nat)
    requires Reaches(listing, START, s) && h in s.jobs && Working(s.jobs[h])
    ensures s.jobs[h].snapshot in s.prog && s.prog[s.jobs[h].snapshot] == h
    ensures k in s.jobs && Working(s.jobs[k]) && s.jobs[k].snapshot == s.jobs[h].snapshot ==> k == h
  {
    hide Stored, Entries, HandleOk, MappedOk;
    ReachableGood(listing, s);
    assert JobOk(listing, s, h) && (k in s.jobs ==> JobOk(listing, s, k));
  }

  /** The rows of a snapshot are none or one full listing, and once they are
      there no retry or crash changes them. */
  lemma AllOrNothing(listing: Listing, s: State, n: State, snapshot: nat)
    requires Reaches(listing, START, s) && Reaches(listing, s, n)
    ensures Stored(s, snapshot) == [] || Stored(s, snapshot) == Entries(listing, snapshot)
    ensures Stored(s, snapshot) != [] ==> Stored(n, snapshot) == Stored(s, snapshot)
  {
    hide Apply, Enabled, Stored;
    ReachableGood(listing, s);
    assert RowsOk(listing, s, snapshot);
    var es :| Run(listing, s, es) && Final(listing, s, es) == n;
    RunGood(listing, s, es);
  }

  /** What a handle shows of a job that is through: everything, or nothing if
      there was nothing to do. */
  predicate EndShown(p: Handle, entries: seq<Entry>) {
    (p.stage == Indexed && p.done == |entries|) || (p.stage == Discovering && p.done == 0)
  }

  /** What a handle shows at each step: entries are counted one by one, then rows
      in thousands. */
  predicate Shown(step: Step, p: Handle, entries: seq<Entry>) {
    match step
    case Check => p.stage == Discovering && p.done == 0
    case List(n) => p.stage == Discovering && p.done == n
    case Insert(n) =>
      if n == 0 then p.stage == Discovering && p.done == |entries|
      else p.stage == Indexed && p.done == (n - 1) / 1000 * 1000
    case Drop => true
    case Finish(failed) => failed || EndShown(p, entries)
  }

  ghost predicate ProgressOk(listing: Listing, s: State) {
    && (forall h {:trigger s.jobs[h]} :: At(s, h) ==>
          Shown(s.jobs[h].step, s.handles[h], Entries(listing, s.jobs[h].snapshot)))
    && (forall h {:trigger s.handles[h]} :: h in s.handles && s.handles[h].finished && !s.handles[h].failed ==>
          EndShown(s.handles[h], Entries(listing, s.handles[h].snapshot)))
  }

  lemma OwnProgress(listing: Listing, s: State, e: Event, h: nat)
    requires Good(listing, s) && ProgressOk(listing, s) && Enabled(listing, s, e) && JobOf(e) == Some(h)
    ensures var n := Apply(listing, s, e);
      && (At(n, h) ==> Shown(n.jobs[h].step, n.handles[h], Entries(listing, n.jobs[h].snapshot)))
      && (h in n.handles && n.handles[h].finished && !n.handles[h].failed ==>
            EndShown(n.handles[h], Entries(listing, n.handles[h].snapshot)))
  {
    assert JobOk(listing, s, h) && Shown(s.jobs[h].step, s.handles[h], Entries(listing, s.jobs[h].snapshot));
    if e.Inserted? {
      hide Good, ProgressOk;
      InsertedProgress(listing, s, h, e.ok);
      hide Apply, Enabled, Shown, EndShown, Entries;
    } else {
      hide Good, ProgressOk, Entries, Stored;
    }
  }

  lemma InsertedProgress(listing: Listing, s: State, h: nat, ok: bool)
    requires Enabled(listing, s, Inserted(h, ok))
    requires !s.handles[h].finished && Shown(s.jobs[h].step, s.handles[h], Entries(listing, s.jobs[h].snapshot))
    ensures var n := Apply(listing, s, Inserted(h, ok));
      && At(n, h) && Shown(n.jobs[h].step, n.handles[h], Entries(listing, n.jobs[h].snapshot)) && !n.handles[h].finished
  {
    hide Entries, Stored;
  }

  lemma NewProgress(listing: Listing, s: State, e: Event)
    requires Good(listing, s) && ProgressOk(listing, s) && (e.Ensured? || e.Crashed?)
    ensures ProgressOk(listing, Apply(listing, s, e))
  {
    NextIsNew(listing, s);
    hide Good, Entries, EndShown;
  }

  lemma StepProgress(listing: Listing, s: State, e: Event)
    requires Good(listing, s) && ProgressOk(listing, s) && Enabled(listing, s, e)
    ensures ProgressOk(listing, Apply(listing, s, e))
  {
    hide Good, Apply, Enabled, Entries, Shown, EndShown;
    if JobOf(e).Some? {
      var n, h := Apply(listing, s, e), JobOf(e).value;
      OwnProgress(listing, s, e, h);
      forall k | At(n, k) ensures Shown(n.jobs[k].step, n.handles[k], Entries(listing, n.jobs[k].snapshot)) {
        if k != h { OthersProgress(listing, s, e, k); }
      }
      forall k | k in n.handles && n.handles[k].finished && !n.handles[k].failed
        ensures EndShown(n.handles[k], Entries(listing, n.handles[k].snapshot))
      {
        if k != h { OthersProgress(listing, s, e, k); }
      }
    } else {
      NewProgress(listing, s, e);
    }
  }

  lemma OthersProgress(listing: Listing, s: State, e: Event, k: nat)
    requires Enabled(listing, s, e) && JobOf(e).Some? && JobOf(e) != Some(k)
    ensures var n := Apply(listing, s, e);
      && (k in s.jobs <==> k in n.jobs) && (k in s.handles <==> k in n.handles)
      && (k in s.jobs ==> n.jobs[k] == s.jobs[k]) && (k in s.handles ==> n.handles[k] == s.handles[k])
  {
    hide Entries, Stored;
  }

  lemma {:induction false} RunProgress(listing: Listing, s: State, es: seq<Event>)
    requires Good(listing, s) && ProgressOk(listing, s) && Run(listing, s, es)
    ensures ProgressOk(listing, Final(listing, s, es))
    decreases |es|
  {
    if es != [] {
      hide Good, Lasts, ProgressOk, Apply, Enabled;
      StepGood(listing, s, es[0]);
      StepProgress(listing, s, es[0]);
      RunProgress(listing, Apply(listing, s, es[0]), es[1..]);
    }
  }

  /** What callers see of a job, over every run: how many entries it has listed,
      then how many thousands of rows are in the transaction, and at the end
      either all of them or that there was nothing to do. */
  lemma ProgressExact(listing: Listing, s: State, h: nat)
    requires Reaches(listing, START, s) && h in s.handles
    ensures h in s.jobs ==> Shown(s.jobs[h].step, s.handles[h], Entries(listing, s.jobs[h].snapshot))
    ensures s.handles[h].finished && !s.handles[h].failed ==>
      EndShown(s.handles[h], Entries(listing, s.handles[h].snapshot))
  {
    hide Apply, Enabled;
    assert Good(listing, START) by {
      forall snapshot ensures RowsOk(listing, START, snapshot) {}
    }
    var es :| Run(listing, START, es) && Final(listing, START, es) == s;
    RunProgress(listing, START, es);
  }

  /** A handle that reports success means the rows are committed, and one that
      reports failure is no longer handed out. */
  lemma HandlesTellTheTruth(listing: Listing, s: State, h: nat)
    requires Reaches(listing, START, s) && h in s.handles && s.handles[h].finished
    ensures !s.handles[h].failed ==> Stored(s, s.handles[h].snapshot) == Entries(listing, s.handles[h].snapshot)
    ensures s.handles[h].failed ==> forall snapshot :: snapshot in s.prog ==> s.prog[snapshot] != h
  {
    hide Stored, Entries, StepFits;
    ReachableGood(listing, s);
    assert HandleOk(listing, s, h) && (h in s.jobs ==> JobOk(listing, s, h));
    forall snapshot | snapshot in s.prog && s.handles[h].failed ensures s.prog[snapshot] != h {
      assert MappedOk(s, snapshot);
    }
  }

  /** Whoever asks for a snapshot gets a handle that has not failed: of a job
      that works for it, or of one that is through. */
  lemma EnsureGivesLiveHandle(listing: Listing, s: State, snapshot: nat, total: nat)
    requires Reaches(listing, START, s)
    ensures var n := Apply(listing, s, Ensured(snapshot, total));
      && snapshot in n.prog && n.prog[snapshot] in n.handles && n.handles[n.prog[snapshot]].snapshot == snapshot
      && var p := n.handles[n.prog[snapshot]];
         if p.finished then !p.failed && Stored(n, snapshot) == Entries(listing, snapshot)
         else n.prog[snapshot] in n.jobs && Working(n.jobs[n.prog[snapshot]])
  {
    hide Stored, Entries, StepFits;
    ReachableGood(listing, s);
    StepGood(listing, s, Ensured(snapshot, total));
    var n := Apply(listing, s, Ensured(snapshot, total));
    assert MappedOk(n, snapshot) && HandleOk(listing, n, n.prog[snapshot]);
    assert n.prog[snapshot] in n.jobs ==> JobOk(listing, n, n.prog[snapshot]);
  }

  lemma {:induction false} RunSnoc(listing: Listing, s: State, es: seq<Event>, e: Event)
    requires Run(listing, s, es) && Enabled(listing, Final(listing, s, es), e)
    ensures Run(listing, s, es + [e]) && Final(listing, s, es + [e]) == Apply(listing, Final(listing, s, es), e)
    decreases |es|
  {
    hide Apply, Enabled;
    if es == [] {
      var n := Apply(listing, s, e);
      assert Run(listing, n, []) && Final(listing, n, []) == n;
      assert ([] + [e])[0] == e && ([] + [e])[1..] == [];
    } else {
      assert (es + [e])[1..] == es[1..] + [e] && (es + [e])[0] == es[0];
      RunSnoc(listing, Apply(listing, s, es[0]), es[1..], e);
    }
  }

  lemma ReachesStep(listing: Listing, s: State, n: State, e: Event)
    requires Reaches(listing, s, n) && Enabled(listing, n, e)
    ensures Reaches(listing, s, Apply(listing, n, e))
  {
    hide Apply, Enabled;
    var es :| Run(listing, s, es) && Final(listing, s, es) == n;
    RunSnoc(listing, s, es, e);
  }

  // ---- The code ------------------------------------------------------------------------------------

  class IndexProgress {
    var stage: Stage
    var done: nat
    var total: nat
    var failed: bool
    var finished: bool

    constructor (total: nat)
      ensures Is(Discovering, 0, total, false, false)
    {
      stage, done, this.total, failed, finished := Discovering, 0, total, false, false;
    }

    predicate Is(stage: Stage, done: nat, total: nat, failed: bool, finished: bool)
      reads this
    {
      this.stage == stage && this.done == done && this.total == total && this.failed == failed
        && this.finished == finished
    }

    ghost predicate Shows(p: Handle)
      reads this
    {
      Is(p.stage, p.done, p.total, p.failed, p.finished)
    }

    method Set(stage: Stage, done: nat)
      modifies this
      ensures Is(stage, done, old(total), old(failed), old(finished))
    {
      this.stage := stage;
      this.done := done;
    }

    method Finish(failed: bool)
      modifies this
      ensures Is(old(stage), old(done), old(total), failed, true)
    {
      this.failed := failed;
      finished := true;
    }
  }

  /** How the outside world treats one job: its first query, how many entries
      rustic delivers and whether it and the begin of the transaction succeed,
      the insert that fails if any, and the commit. */
  datatype World = World(checked: bool, delivered: nat, listed: bool, failsAt: Option<nat>, commits: bool)

  predicate FailsAt(w: World, i: nat) {
    w.failsAt == Some(i)
  }

  /** Whether a job with nothing to find in the table gets through. */
  predicate GetsThrough(w: World, entries: seq<Entry>) {
    w.listed && (w.failsAt.None? || w.failsAt.value >= |entries|) && w.commits
  }

  class Catalog {
    const listing: Listing
    var rows: map<nat, seq<Entry>>
    var idxProg: map<nat, IndexProgress>
    ghost var now: State

    constructor (listing: Listing)
      ensures this.listing == listing && Valid() && now == START
    {
      this.listing, rows, idxProg, now := listing, map[], map[], START;
    }

    ghost predicate Valid()
      reads this
    {
      rows == now.rows && idxProg.Keys == now.prog.Keys
    }

    /** Job h is at this step and p is its handle. */
    ghost predicate Doing(h: nat, snapshot: nat, p: IndexProgress, step: Step)
      reads this, p
    {
      h in now.jobs && now.jobs[h] == Job(snapshot, step) && h in now.handles && p.Shows(now.handles[h])
    }

    ghost method Take(e: Event)
      requires Enabled(listing, now, e)
      modifies this`now
      ensures now == Apply(listing, old(now), e)
      ensures forall s :: Reaches(listing, s, old(now)) ==> Reaches(listing, s, now)
    {
      hide Apply, Enabled, Reaches;
      forall s | Reaches(listing, s, now) ensures Reaches(listing, s, Apply(listing, now, e)) {
        ReachesStep(listing, s, now, e);
      }
      now := Apply(listing, now, e);
    }

    function Rows(snapshot: nat): seq<Entry>
      reads this
    {
      if snapshot in rows then rows[snapshot] else []
    }

    /** EnsureIndexing; the goroutine it starts runs IndexJob. */
    method EnsureIndexing(snapshot: nat, total: nat) returns (p: IndexProgress, started: bool)
      requires Valid()
      modifies this
      ensures Valid() && snapshot in idxProg && p == idxProg[snapshot] && rows == old(rows)
      ensures started <==> snapshot !in old(idxProg)
      ensures !started ==> idxProg == old(idxProg)
      ensures started ==> fresh(p) && idxProg == old(idxProg)[snapshot := p] && Doing(old(now.next), snapshot, p, Check)
      ensures forall s :: Reaches(listing, s, old(now)) ==> Reaches(listing, s, now)
    {
      hide Reaches;
      Take(Ensured(snapshot, total));
      if snapshot in idxProg {
        return idxProg[snapshot], false;
      }
      p := new IndexProgress(total);
      idxProg := idxProg[snapshot := p];
      started := true;
    }

    /** Lists the entries one by one. */
    method ListFiles(ghost h: nat, snapshot: nat, p: IndexProgress, w: World) returns (entries: seq<Entry>, ok: bool)
      requires Valid() && Doing(h, snapshot, p, List(0))
      modifies this`now, p
      ensures Valid() && ok == w.listed
      ensures ok ==> entries == Entries(listing, snapshot) && Doing(h, snapshot, p, Insert(0))
      ensures !ok ==> entries <= Entries(listing, snapshot)
      ensures entries != [] ==> p.stage == Discovering && p.done == |entries|
      ensures !ok ==> Doing(h, snapshot, p, Drop)
      ensures forall s :: Reaches(listing, s, old(now)) ==> Reaches(listing, s, now)
    {
      hide Reaches, Entries;
      var all := Entries(listing, snapshot);
      entries := [];
      var n := if w.listed || w.delivered > |all| then |all| else w.delivered;
      while |entries| < n
        invariant |entries| <= n && entries == all[..|entries|]
        invariant Valid() && Doing(h, snapshot, p, List(|entries|))
        invariant entries != [] ==> p.stage == Discovering && p.done == |entries|
        invariant forall s :: Reaches(listing, s, old(now)) ==> Reaches(listing, s, now)
      {
        Take(Listed(h));
        entries := entries + [all[|entries|]];
        p.Set(Discovering, |entries|);
      }
      ok := w.listed;
      Take(ListEnded(h, ok));
    }

    /** Inserts the entries within one transaction and commits it. */
    method InsertAll(ghost h: nat, snapshot: nat, p: IndexProgress, entries: seq<Entry>, w: World) returns (ok: bool)
      requires Valid() && Doing(h, snapshot, p, Insert(0)) && entries == Entries(listing, snapshot)
      modifies this`now, this`rows, p
      ensures Valid() && ok == ((w.failsAt.None? || w.failsAt.value >= |entries|) && w.commits)
      ensures ok ==>
        rows == old(rows)[snapshot := old(Rows(snapshot)) + entries] && Doing(h, snapshot, p, Step.Finish(false))
      ensures ok ==> p.stage == Indexed && p.done == |entries|
      ensures !ok ==> rows == old(rows) && Doing(h, snapshot, p, Drop)
      ensures forall s :: Reaches(listing, s, old(now)) ==> Reaches(listing, s, now)
    {
      hide Reaches, Entries;
      var pending: seq<Entry> := [];
      for i := 0 to |entries|
        invariant pending == entries[..i] && rows == old(rows) && !(w.failsAt.Some? && w.failsAt.value < i)
        invariant Valid() && Doing(h, snapshot, p, Insert(i))
        invariant forall s :: Reaches(listing, s, old(now)) ==> Reaches(listing, s, now)
      {
        Take(Inserted(h, !FailsAt(w, i)));
        if FailsAt(w, i) {
          return false;
        }
        pending := pending + [entries[i]];
        if i % 1000 == 0 {
          p.Set(Indexed, i);
        }
      }
      Take(Committed(h, w.commits));
      if !w.commits {
        return false;
      }
      assert pending == entries;
      rows := rows[snapshot := Rows(snapshot) + pending];
      p.Set(Indexed, |entries|);
      return true;
    }

    /** indexSnapshotWithProgress. */
    method IndexSnapshot(ghost h: nat, snapshot: nat, p: IndexProgress, w: World) returns (failed: bool)
      requires Valid() && Doing(h, snapshot, p, Check)
      modifies this`now, this`rows, p
      ensures Valid() && Doing(h, snapshot, p, if failed then Drop else Step.Finish(false))
      ensures failed <==> !w.checked || (old(Rows(snapshot)) == [] && !GetsThrough(w, Entries(listing, snapshot)))
      ensures failed || old(Rows(snapshot)) != [] ==> rows == old(rows)
      ensures !failed && old(Rows(snapshot)) == [] ==> rows == old(rows)[snapshot := Entries(listing, snapshot)]
      ensures forall s :: Reaches(listing, s, old(now)) ==> Reaches(listing, s, now)
    {
      hide Reaches, Entries;
      Take(Checked(h, w.checked));
      if !w.checked {
        return true;
      }
      if Rows(snapshot) != [] {
        return false;
      }
      var entries, ok := ListFiles(h, snapshot, p, w);
      if !ok {
        return true;
      }
      ok := InsertAll(h, snapshot, p, entries, w);
      assert [] + entries == entries;
      return !ok;
    }

    /** The goroutine: index, take a failed entry out of the map, finish. */
    method IndexJob(ghost h: nat, snapshot: nat, p: IndexProgress, w: World)
      requires Valid() && Doing(h, snapshot, p, Check)
      modifies this, p
      ensures Valid() && h !in now.jobs && p.finished
      ensures p.failed <==> !w.checked || (old(Rows(snapshot)) == [] && !GetsThrough(w, Entries(listing, snapshot)))
      ensures idxProg == if p.failed then old(idxProg) - {snapshot} else old(idxProg)
      ensures p.failed || old(Rows(snapshot)) != [] ==> rows == old(rows)
      ensures !p.failed && old(Rows(snapshot)) == [] ==> rows == old(rows)[snapshot := Entries(listing, snapshot)]
      ensures forall s :: Reaches(listing, s, old(now)) ==> Reaches(listing, s, now)
    {
      hide Reaches, Entries;
      var failed := IndexSnapshot(h, snapshot, p, w);
      if failed {
        Take(Dropped(h));
        idxProg := idxProg - {snapshot};
      }
      Take(Event.Finished(h));
      p.Finish(failed);
    }
  }
}