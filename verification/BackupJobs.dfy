/** Backup jobs under every interleaving of worker goroutines, cancel requests,
    deploy jobs, crashes and the startup repair. All of them write the status of
    the same rows (api/internal/scheduler/scheduler.go:163-228; router.go:352-531,
    723-784, 847-868; api/internal/engine/cancel.go; api/cmd/server/main.go:74-88). */
module BackupJobs {
  import opened Wrappers

  datatype Status = Running | Completed | Failed | Cancelled

  /** Who created the job, and so which code works on it. */
  datatype Kind = Scheduled | RunNow | Deploy

  /** error_message. */
  datatype Note = NoNote | RunError | CancelledByUser | Interrupted | SyncFailed

  datatype Row = Row(kind: Kind, status: Status, note: Note)

  /** What a worker does next. Deploy jobs only work and write. */
  datatype Phase =
    | Register
    | Work
    | Write(ok: bool, note: Note)
    | Notify
    | Sync                // run-now: catalog sync after the notice
    | Unregister

  datatype Worker = Worker(job: nat, kind: Kind, phase: Phase)

  /** A cancel request that found the job registered: about to mark the row, or
      to kill the process. */
  datatype Handler = Handler(job: nat, marked: bool)

  datatype Reply = Conflict | ServerError | Cancelling

  /** The table, the processes and the registry of cancel functions, with
      histories: contexts cancelled, completion notices, answers to cancel
      requests, jobs a failed startup repair left running, and how the run of
      rustic or of the deployment ended. */
  datatype State = State(
    rows: map<nat, Row>,
    workers: map<nat, Worker>,
    registry: map<nat, nat>,
    handlers: map<nat, Handler>,
    up: bool,
    nextJob: nat,
    nextThread: nat,
    killed: set<nat>,
    notices: seq<nat>,
    replies: seq<(nat, Reply)>,
    stuck: set<nat>,
    ran: map<nat, bool>
  )

  const START := State(map[], map[], map[], map[], false, 0, 0, {}, [], [], {}, map[])

  datatype Event =
    | Inserted(kind: Kind)
    | Registered(t: nat)
    | Ran(t: nat, ok: bool, synced: bool)
    | Wrote(t: nat)
    | Notified(t: nat)
    | Synced(t: nat, ok: bool)
    | Unregistered(t: nat)
    | CancelAsked(h: nat, job: nat)
    | Marked(h: nat)
    | MarkBroke(h: nat, applied: bool)   // the request's context ended during the update
    | Killed(h: nat)
    | Crashed
    | Repaired(ok: bool)

  predicate At(s: State, t: nat) {
    t in s.workers && s.workers[t].job in s.rows
  }

  predicate HandledAt(s: State, h: nat) {
    h in s.handlers && s.handlers[h].job in s.rows
  }

  function WorkerOf(e: Event): Option<nat> {
    match e
    case Registered(t) => Some(t)
    case Ran(t, _, _) => Some(t)
    case Wrote(t) => Some(t)
    case Notified(t) => Some(t)
    case Synced(t, _) => Some(t)
    case Unregistered(t) => Some(t)
    case _ => None
  }

  predicate Enabled(s: State, e: Event) {
    match e
    case Inserted(_) => s.up
    case Registered(t) => At(s, t) && s.workers[t].phase.Register?
    case Ran(t, _, _) => At(s, t) && s.workers[t].phase.Work?
    case Wrote(t) => At(s, t) && s.workers[t].phase.Write?
    case Notified(t) => At(s, t) && s.workers[t].phase.Notify?
    case Synced(t, _) => At(s, t) && s.workers[t].phase.Sync?
    case Unregistered(t) => At(s, t) && s.workers[t].phase.Unregister?
    case CancelAsked(h, _) => s.up && h !in s.handlers
    case Marked(h) => HandledAt(s, h) && !s.handlers[h].marked
    case MarkBroke(h, _) => HandledAt(s, h) && !s.handlers[h].marked
    case Killed(h) => HandledAt(s, h) && s.handlers[h].marked
    case Crashed => true
    case Repaired(_) => !s.up
  }

  // ---- The statements ------------------------------------------------------------------

  /** UPDATE ... WHERE id=? AND status='running' */
  function Guarded(row: Row, status: Status, note: Note): Row {
    if row.status == Running then row.(status := status, note := note) else row
  }

  function Outcome(ok: bool): Status {
    if ok then Completed else Failed
  }

  /** Only the scheduler syncs the catalog before its completion update. */
  function OutcomeNote(kind: Kind, ok: bool, synced: bool): Note {
    if !ok then RunError else if kind == Scheduled && !synced then SyncFailed else NoNote
  }

  /** How a worker's completion update changes the row: only deploy's has no guard. */
  function Written(row: Row, kind: Kind, ok: bool, note: Note): Row {
    if kind == Deploy then row.(status := Outcome(ok), note := note)
    else Guarded(row, Outcome(ok), note)
  }

  /** What comes after the update; an update that affects no row ends the job. */
  function AfterWrite(row: Row, kind: Kind, ok: bool): Option<Phase> {
    if kind == Deploy then None
    else if row.status == Running && ok then Some(Notify)
    else Some(Unregister)
  }

  function Repair(row: Row): Row {
    Guarded(row, Failed, Interrupted)
  }

  // ---- The machine ----------------------------------------------------------------------

  function Move(s: State, t: nat, phase: Phase): State
    requires t in s.workers
  {
    s.(workers := s.workers[t := s.workers[t].(phase := phase)])
  }

  function Apply(s: State, e: Event): State
    requires Enabled(s, e)
  {
    match e
    case Inserted(kind) =>
      s.(rows := s.rows[s.nextJob := Row(kind, Running, NoNote)], nextJob := s.nextJob + 1,
         workers := s.workers[s.nextThread := Worker(s.nextJob, kind, if kind == Deploy then Work else Register)],
         nextThread := s.nextThread + 1)
    case Registered(t) => Move(s, t, Work).(registry := s.registry[s.workers[t].job := t])
    case Ran(t, ok, synced) =>
      var w := s.workers[t];
      Move(s, t, Write(ok, OutcomeNote(w.kind, ok, synced))).(ran := s.ran[w.job := ok])
    case Wrote(t) =>
      var w := s.workers[t];
      var row := s.rows[w.job];
      var n := s.(rows := s.rows[w.job := Written(row, w.kind, w.phase.ok, w.phase.note)]);
      (match AfterWrite(row, w.kind, w.phase.ok)
       case None => n.(workers := s.workers - {t})
       case Some(phase) => Move(n, t, phase))
    case Notified(t) =>
      var w := s.workers[t];
      Move(s, t, if w.kind == RunNow then Sync else Unregister).(notices := s.notices + [w.job])
    case Synced(t, ok) =>
      var w := s.workers[t];
      var n := Move(s, t, Unregister);
      if ok then n else n.(rows := s.rows[w.job := s.rows[w.job].(note := SyncFailed)])
    case Unregistered(t) =>
      s.(workers := s.workers - {t}, registry := s.registry - {s.workers[t].job})
    case CancelAsked(h, job) =>
      if job in s.registry then s.(handlers := s.handlers[h := Handler(job, false)])
      else s.(replies := s.replies + [(job, Conflict)])
    case Marked(h) =>
      var job := s.handlers[h].job;
      if s.rows[job].status == Running then
        s.(rows := s.rows[job := Guarded(s.rows[job], Cancelled, CancelledByUser)],
          handlers := s.handlers[h := Handler(job, true)])
      else s.(handlers := s.handlers - {h}, replies := s.replies + [(job, Conflict)])
    case MarkBroke(h, applied) =>
      var job := s.handlers[h].job;
      s.(rows := if applied then s.rows[job := Guarded(s.rows[job], Cancelled, CancelledByUser)] else s.rows,
         handlers := s.handlers - {h}, replies := s.replies + [(job, ServerError)])
    case Killed(h) =>
      var job := s.handlers[h].job;
      s.(killed := if job in s.registry then s.killed + {s.registry[job]} else s.killed,
         handlers := s.handlers - {h}, replies := s.replies + [(job, Cancelling)])
    case Crashed => s.(workers := map[], registry := map[], handlers := map[], killed := {}, up := false, stuck := {})
    case Repaired(ok) =>
      if ok then s.(up := true, rows := map j | j in s.rows :: Repair(s.rows[j]))
      else s.(up := true, stuck := set j | j in s.rows && s.rows[j].status == Running)
  }

  ghost predicate Run(s: State, es: seq<Event>)
    decreases |es|
  {
    es == [] || (Enabled(s, es[0]) && Run(Apply(s, es[0]), es[1..]))
  }

  function Final(s: State, es: seq<Event>): State
    requires Run(s, es)
    decreases |es|
  {
    if es == [] then s else Final(Apply(s, es[0]), es[1..])
  }

  ghost predicate Reaches(s: State, n: State) {
    exists es :: Run(s, es) && Final(s, es) == n
  }

  // ---- The invariant ----------------------------------------------------------------------

  /** Before its completion update has run. */
  predicate Busy(w: Worker) {
    w.phase.Register? || w.phase.Work? || w.phase.Write?
  }

  /** The status of a worker's row at each phase: only a cancel request can get
      ahead of the worker, and never of a deploy job. */
  predicate StatusFits(w: Worker, row: Row) {
    && row.kind == w.kind
    && (w.kind == Deploy ==> (w.phase.Work? || w.phase.Write?) && row.status == Running)
    && (Busy(w) ==> row.status == Running || row.status == Cancelled)
    && (w.phase.Notify? || w.phase.Sync? ==> row.status == Completed)
    && (w.phase.Sync? ==> w.kind == RunNow)
    && (w.phase.Unregister? ==> row.status != Running)
  }

  ghost predicate WorkerOk(s: State, t: nat) {
    t in s.workers && var w := s.workers[t];
    && t < s.nextThread && s.up && w.job in s.rows && w.job !in s.stuck
    && StatusFits(w, s.rows[w.job])
    && (w.kind != Deploy && !w.phase.Register? ==> w.job in s.registry && s.registry[w.job] == t)
    && (w.phase.Register? ==> w.job !in s.registry)
  }

  /** A registered cancel function is that of the job's own worker. */
  ghost predicate EntryOk(s: State, j: nat) {
    j in s.registry && var t := s.registry[j];
    t in s.workers && s.workers[t].job == j && s.workers[t].kind != Deploy
  }

  ghost predicate HandlerOk(s: State, h: nat) {
    h in s.handlers && var r := s.handlers[h];
    && s.up && r.job in s.rows && s.rows[r.job].kind != Deploy && r.job !in s.stuck
    && (forall t :: t in s.workers && s.workers[t].job == r.job ==> !s.workers[t].phase.Register?)
    && (r.marked ==> s.rows[r.job].status == Cancelled)
  }

  ghost predicate Worked(s: State, j: nat) {
    exists t :: t in s.workers && s.workers[t].job == j && Busy(s.workers[t])
  }

  ghost predicate JobOk(s: State, j: nat) {
    && j in s.rows
    && j < s.nextJob
    && (s.up && s.rows[j].status == Running ==> Worked(s, j) || j in s.stuck)
  }

  ghost predicate Tidy(s: State) {
    && (forall t, u {:trigger s.workers[t], s.workers[u]} ::
          t in s.workers && u in s.workers && s.workers[t].job == s.workers[u].job ==> t == u)
    && (forall j :: j in s.stuck ==> j in s.rows && s.rows[j].status == Running)
    && (!s.up ==> s.stuck == {})
  }

  ghost predicate Core(s: State) {
    && (forall t {:trigger s.workers[t]} :: t in s.workers ==> WorkerOk(s, t))
    && (forall j {:trigger s.registry[j]} :: j in s.registry ==> EntryOk(s, j))
    && (forall h {:trigger s.handlers[h]} :: h in s.handlers ==> HandlerOk(s, h))
    && (forall j {:trigger s.rows[j]} :: j in s.rows ==> JobOk(s, j))
    && Tidy(s)
  }

  // ---- Every step keeps it -------------------------------------------------------------------

  /** A worker takes a step: on its row, its own entry, itself. */
  ghost predicate WorkerStep(s: State, n: State, t: nat, row: Row) {
    At(s, t) && var j := s.workers[t].job;
    && n.rows == s.rows[j := row] && n.handlers == s.handlers && n.up == s.up && n.stuck == s.stuck
    && n.nextJob == s.nextJob && n.nextThread == s.nextThread
    && (forall u :: u != t ==> (u in n.workers <==> u in s.workers))
    && (forall u :: u != t && u in n.workers ==> n.workers[u] == s.workers[u])
    && (forall k :: k != j ==> (k in n.registry <==> k in s.registry))
    && (forall k :: k != j && k in n.registry ==> n.registry[k] == s.registry[k])
    && row.kind == s.rows[j].kind && (s.rows[j].status == Cancelled ==> row.status == Cancelled)
    && (j in n.registry ==> n.registry[j] == t && t in n.workers)
    && (t in n.workers ==>
          n.workers[t].job == j && !n.workers[t].phase.Register? && StatusFits(n.workers[t], row)
          && (n.workers[t].kind != Deploy <==> j in n.registry))
    && (row.status == Running ==> t in n.workers && Busy(n.workers[t]))
  }

  lemma StepJobs(s: State, n: State, t: nat, row: Row, j: nat)
    requires Core(s) && At(s, t) && WorkerStep(s, n, t, row) && j in n.rows
    ensures JobOk(n, j)
  {
    hide StatusFits, HandlerOk, WorkerOk, EntryOk;
    assert JobOk(s, j);
    if j != s.workers[t].job {
      if u :| u in s.workers && s.workers[u].job == j && Busy(s.workers[u]) {
        assert u in n.workers && n.workers[u] == s.workers[u];
      }
    }
  }

  lemma WorkerStepKeeps(s: State, n: State, t: nat, row: Row)
    requires Core(s) && At(s, t) && WorkerStep(s, n, t, row)
    ensures Core(n)
  {
    hide StatusFits, JobOk;
    assert WorkerOk(s, t) && Tidy(s);
    forall u | u in n.workers ensures WorkerOk(n, u) {
    }
    forall k | k in n.registry ensures EntryOk(n, k) {
      if k != s.workers[t].job {
        assert EntryOk(s, k);
        assert s.registry[k] != t && s.registry[k] in n.workers;
      }
    }
    forall j | j in n.rows ensures JobOk(n, j) {
      StepJobs(s, n, t, row, j);
    }
    forall h | h in n.handlers ensures HandlerOk(n, h) {
      assert HandlerOk(s, h);
    }
    assert Tidy(n);
  }

  lemma WorkerEvent(s: State, e: Event, t: nat)
    requires Core(s) && Enabled(s, e) && WorkerOf(e) == Some(t)
    ensures Core(Apply(s, e))
  {
    hide Core, Tidy;
    var n, j := Apply(s, e), s.workers[t].job;
    CoreGives(s, t);
    WorkerStepKeeps(s, n, t, n.rows[j]);
  }

  lemma CoreGives(s: State, t: nat)
    requires Core(s) && At(s, t)
    ensures WorkerOk(s, t)
    ensures var w := s.workers[t];
      w.job in s.registry ==> s.registry[w.job] == t && w.kind != Deploy && !w.phase.Register?
  {
    assert Tidy(s) && WorkerOk(s, t) && (s.workers[t].job in s.registry ==> EntryOk(s, s.workers[t].job));
  }

  /** The handler's guarded update. */
  function Mark(s: State, job: nat): State
    requires job in s.rows
  {
    s.(rows := s.rows[job := Guarded(s.rows[job], Cancelled, CancelledByUser)])
  }

  lemma MarkKeeps(s: State, job: nat)
    requires Core(s) && job in s.rows && s.rows[job].kind != Deploy && job !in s.stuck
    ensures Core(Mark(s, job))
  {
    var n := Mark(s, job);
    assert Tidy(s);
    forall u | u in n.workers ensures WorkerOk(n, u) {
      assert WorkerOk(s, u);
    }
    forall k | k in n.registry ensures EntryOk(n, k) {
      assert EntryOk(s, k);
    }
    forall j | j in n.rows ensures JobOk(n, j) {
      assert JobOk(s, j);
    }
    forall h | h in n.handlers ensures HandlerOk(n, h) {
      assert HandlerOk(s, h);
    }
    assert Tidy(n);
  }

  /** Handlers, histories and cancelled contexts are not the workers' concern. */
  lemma HandlersKeep(s: State, n: State)
    requires Core(s) && (forall h :: h in n.handlers ==> HandlerOk(n, h))
    requires n.rows == s.rows && n.workers == s.workers && n.registry == s.registry && n.up == s.up
    requires n.stuck == s.stuck && n.nextJob == s.nextJob && n.nextThread == s.nextThread
    ensures Core(n)
  {
    hide StatusFits;
    assert Tidy(s);
    forall u | u in n.workers ensures WorkerOk(n, u) {
      assert WorkerOk(s, u);
    }
    forall k | k in n.registry ensures EntryOk(n, k) {
      assert EntryOk(s, k);
    }
    forall j | j in n.rows ensures JobOk(n, j) {
      assert JobOk(s, j);
    }
    assert Tidy(n);
  }

  lemma HandlerGives(s: State, h: nat)
    ensures Core(s) && h in s.handlers ==> HandlerOk(s, h)
  {
  }

  /** A cancel request takes a step: on one running row of a registered job. */
  lemma HandlerEvent(s: State, e: Event)
    requires Core(s) && Enabled(s, e) && (e.CancelAsked? || e.Marked? || e.MarkBroke? || e.Killed?)
    ensures Core(Apply(s, e))
  {
    hide Core;
    var n := Apply(s, e);
    if e.CancelAsked? {
      if e.job in s.registry {
        RegisteredJob(s, e.job);
      }
      forall h | h in n.handlers ensures HandlerOk(n, h) {
        if h in s.handlers { HandlerGives(s, h); }
      }
      HandlersKeep(s, n);
    } else {
      HandlerGives(s, e.h);
      var job := s.handlers[e.h].job;
      var m := if e.Marked? || (e.MarkBroke? && e.applied) then Mark(s, job) else s;
      MarkKeeps(s, job);
      assert s.rows[job].status != Running ==> Mark(s, job).rows == s.rows;
      forall h | h in n.handlers ensures HandlerOk(n, h) {
        HandlerGives(m, h);
      }
      HandlersKeep(m, n);
    }
  }

  lemma RegisteredJob(s: State, job: nat)
    requires Core(s) && job in s.registry
    ensures s.up && job in s.rows && s.rows[job].kind != Deploy && job !in s.stuck
    ensures s.registry[job] in s.workers && s.workers[s.registry[job]].job == job
    ensures forall t :: t in s.workers && s.workers[t].job == job ==>
      t == s.registry[job] && !s.workers[t].phase.Register?
  {
    assert EntryOk(s, job) && WorkerOk(s, s.registry[job]) && Tidy(s);
  }

  lemma InsertedJobs(s: State, kind: Kind, j: nat)
    requires Core(s) && s.up && j in Apply(s, Inserted(kind)).rows
    ensures JobOk(Apply(s, Inserted(kind)), j)
  {
    var n := Apply(s, Inserted(kind));
    Bounds(s);
    if j == s.nextJob {
      assert s.nextThread in n.workers && n.workers[s.nextThread].job == j;
    } else {
      assert JobOk(s, j);
      hide Core;
      if u :| u in s.workers && s.workers[u].job == j && Busy(s.workers[u]) {
        assert u in n.workers && n.workers[u] == s.workers[u];
      }
    }
  }

  lemma InsertedWorkers(s: State, kind: Kind, u: nat)
    requires Core(s) && s.up && u in Apply(s, Inserted(kind)).workers
    ensures WorkerOk(Apply(s, Inserted(kind)), u)
  {
    Bounds(s);
    assert u in s.workers ==> WorkerOk(s, u);
    hide Core;
  }

  lemma InsertKeeps(s: State, kind: Kind)
    requires Core(s) && s.up
    ensures Core(Apply(s, Inserted(kind)))
  {
    hide JobOk;
    var n := Apply(s, Inserted(kind));
    assert Tidy(s);
    Bounds(s);
    forall u | u in n.workers ensures WorkerOk(n, u) {
      InsertedWorkers(s, kind, u);
    }
    hide StatusFits;
    forall k | k in n.registry ensures EntryOk(n, k) {
      assert EntryOk(s, k);
    }
    forall j | j in n.rows ensures JobOk(n, j) {
      InsertedJobs(s, kind, j);
    }
    forall h | h in n.handlers ensures HandlerOk(n, h) {
      assert HandlerOk(s, h);
    }
    assert Tidy(n);
  }

  /** The next job and the next thread are new. */
  lemma Bounds(s: State)
    requires Core(s)
    ensures s.nextJob !in s.rows && s.nextThread !in s.workers && s.nextJob !in s.registry && s.nextJob !in s.stuck
    ensures forall t :: t in s.workers ==> s.workers[t].job != s.nextJob
  {
    assert Tidy(s) && forall j :: j in s.rows ==> JobOk(s, j);
    assert forall t :: t in s.workers ==> WorkerOk(s, t);
    assert forall j :: j in s.registry ==> EntryOk(s, j);
  }

  lemma RestartKeeps(s: State, e: Event)
    requires Core(s) && Enabled(s, e) && (e.Crashed? || e.Repaired?)
    ensures Core(Apply(s, e))
  {
    var n := Apply(s, e);
    assert Tidy(s);
    assert forall t :: t in s.workers ==> WorkerOk(s, t);
    assert forall h :: h in s.handlers ==> HandlerOk(s, h);
    assert forall k :: k in s.registry ==> EntryOk(s, k);
    forall j | j in n.rows ensures JobOk(n, j) {
      assert JobOk(s, j);
    }
    assert Tidy(n);
  }

  lemma StepKeeps(s: State, e: Event)
    requires Core(s) && Enabled(s, e)
    ensures Core(Apply(s, e))
  {
    hide Core, Apply;
    if e.Inserted? {
      InsertKeeps(s, e.kind);
    } else if e.Crashed? || e.Repaired? {
      RestartKeeps(s, e);
    } else if WorkerOf(e).Some? {
      WorkerEvent(s, e, WorkerOf(e).value);
    } else {
      HandlerEvent(s, e);
    }
  }

  // ---- What no step undoes ---------------------------------------------------------------------

  ghost predicate Lasts(s: State, n: State) {
    forall j :: j in s.rows ==>
      j in n.rows && n.rows[j].kind == s.rows[j].kind
        && (s.rows[j].status != Running ==> n.rows[j].status == s.rows[j].status)
  }

  /** Workers that do not write, and requests that only look, change no row. */
  lemma RowsUntouched(s: State, e: Event)
    requires Enabled(s, e)
    requires e.Registered? || e.Ran? || e.Notified? || e.Unregistered? || e.CancelAsked? || e.Killed? || e.Crashed?
    ensures Apply(s, e).rows == s.rows
  {
  }

  lemma GuardedLasts(s: State, e: Event)
    requires Enabled(s, e) && (e.Marked? || e.MarkBroke? || e.Repaired?)
    ensures Lasts(s, Apply(s, e))
  {
  }

  lemma StepLasts(s: State, e: Event)
    requires Core(s) && Enabled(s, e)
    ensures Lasts(s, Apply(s, e))
  {
    if e.Wrote? || e.Synced? {
      hide Core, Apply;
      WorkerLasts(s, e, e.t);
    } else if e.Marked? || e.MarkBroke? || e.Repaired? {
      hide Core, Apply;
      GuardedLasts(s, e);
    } else if e.Inserted? {
      Bounds(s);
      hide Core;
    } else {
      hide Core, Apply;
      RowsUntouched(s, e);
    }
  }

  lemma WorkerLasts(s: State, e: Event, t: nat)
    requires Core(s) && Enabled(s, e) && (e == Wrote(t) || (e.Synced? && e.t == t))
    ensures Lasts(s, Apply(s, e))
  {
    hide Core, Apply, Enabled;
    WrittenRow(s, e, t);
  }

  lemma WrittenRow(s: State, e: Event, t: nat)
    requires Core(s) && Enabled(s, e) && (e == Wrote(t) || (e.Synced? && e.t == t))
    ensures var n, j := Apply(s, e), s.workers[t].job;
      j in n.rows && n.rows == s.rows[j := n.rows[j]] && n.rows[j].kind == s.rows[j].kind
      && (s.rows[j].status != Running ==> n.rows[j].status == s.rows[j].status)
  {
    CoreGives(s, t);
    hide Core, EntryOk, AfterWrite, OutcomeNote;
  }

  /** A job that was answered 200 is cancelled, and its worker's context too. */
  ghost predicate CancelOk(s: State) {
    forall a :: 0 <= a < |s.replies| && s.replies[a].1 == Cancelling ==>
      && s.replies[a].0 in s.rows && s.rows[s.replies[a].0].status == Cancelled
      && forall t :: t in s.workers && s.workers[t].job == s.replies[a].0 ==> t in s.killed
  }

  /** Workers only move or end; a new one has a new job. */
  lemma OldWorker(s: State, e: Event, t: nat)
    requires Core(s) && Enabled(s, e) && t in Apply(s, e).workers
    ensures t in s.workers ==> Apply(s, e).workers[t].job == s.workers[t].job
    ensures t in s.workers && WorkerOf(e) != Some(t) ==> Apply(s, e).workers[t] == s.workers[t]
    ensures t !in s.workers ==> Apply(s, e).workers[t].job == s.nextJob && !Apply(s, e).workers[t].phase.Notify?
    ensures t in s.killed ==> t in Apply(s, e).killed
  {
    if WorkerOf(e).Some? {
      MovedWorker(s, e, t);
      hide Apply, Enabled, Core;
    } else {
      Bounds(s);
      hide Core;
    }
  }

  lemma MovedWorker(s: State, e: Event, t: nat)
    requires Enabled(s, e) && WorkerOf(e).Some? && t in Apply(s, e).workers
    ensures t in s.workers && Apply(s, e).workers[t].job == s.workers[t].job && Apply(s, e).killed == s.killed
    ensures WorkerOf(e) != Some(t) ==> Apply(s, e).workers[t] == s.workers[t]
  {
    hide Written, AfterWrite, OutcomeNote;
  }

  lemma StepCancels(s: State, e: Event)
    requires Core(s) && CancelOk(s) && Enabled(s, e)
    ensures CancelOk(Apply(s, e))
  {
    hide Core;
    StepLasts(s, e);
    Bounds(s);
    var n := Apply(s, e);
    if e.Killed? {
      HandlerGives(s, e.h);
      KillsWorkers(s, e.h);
    }
    assert |n.replies| >= |s.replies| && n.replies[..|s.replies|] == s.replies;
    forall a | 0 <= a < |n.replies| && n.replies[a].1 == Cancelling
      ensures n.replies[a].0 in n.rows && n.rows[n.replies[a].0].status == Cancelled
      ensures forall t :: t in n.workers && n.workers[t].job == n.replies[a].0 ==> t in n.killed
    {
      assert a < |s.replies| ==> n.replies[a] == s.replies[a];
      forall t | t in n.workers && n.workers[t].job == n.replies[a].0 ensures t in n.killed {
        OldWorker(s, e, t);
      }
    }
  }

  /** Killing reaches every process that still works on the job. */
  lemma KillsWorkers(s: State, h: nat)
    requires Core(s) && Enabled(s, Killed(h))
    ensures forall t :: t in s.workers && s.workers[t].job == s.handlers[h].job ==> t in Apply(s, Killed(h)).killed
  {
    var job := s.handlers[h].job;
    forall t | t in s.workers && s.workers[t].job == job ensures t in Apply(s, Killed(h)).killed {
      assert HandlerOk(s, h) && WorkerOk(s, t);
    }
  }

  /** Completion notices are for completed jobs, one for each. */
  ghost predicate NoticesOk(s: State) {
    && (forall a, b :: 0 <= a < b < |s.notices| ==> s.notices[a] != s.notices[b])
    && (forall a :: 0 <= a < |s.notices| ==> s.notices[a] in s.rows && s.rows[s.notices[a]].status == Completed)
    && (forall t, a :: t in s.workers && s.workers[t].phase.Notify? && 0 <= a < |s.notices| ==>
      s.notices[a] != s.workers[t].job)
  }

  /** Only a worker whose update completed a running row comes to notify. */
  lemma NotifierAfter(s: State, e: Event, t: nat)
    requires Core(s) && Enabled(s, e) && t in Apply(s, e).workers && Apply(s, e).workers[t].phase.Notify?
    ensures t in s.workers && Apply(s, e).workers[t].job == s.workers[t].job && e != Notified(t)
    ensures s.workers[t].phase.Notify? || (s.workers[t].job in s.rows && s.rows[s.workers[t].job].status == Running)
  {
    OldWorker(s, e, t);
    hide Core, Guarded, Written, Repair;
    if WorkerOf(e) != Some(t) {
      hide Apply, Enabled;
    }
  }

  lemma NewNotice(s: State, e: Event)
    requires Core(s) && Enabled(s, e)
    ensures e.Notified? ==> At(s, e.t) && s.workers[e.t].phase.Notify? && s.rows[s.workers[e.t].job].status == Completed
    ensures Apply(s, e).notices == if e.Notified? then s.notices + [s.workers[e.t].job] else s.notices
  {
    if e.Notified? { CoreGives(s, e.t); }
    hide Core;
  }

  /** A worker that is to notify is the first to do so. */
  lemma NotifiersApart(s: State, e: Event, t: nat)
    requires Core(s) && NoticesOk(s) && Enabled(s, e)
    requires t in Apply(s, e).workers && Apply(s, e).workers[t].phase.Notify?
    ensures forall a :: 0 <= a < |Apply(s, e).notices| ==> Apply(s, e).notices[a] != Apply(s, e).workers[t].job
  {
    NewNotice(s, e);
    NotifierAfter(s, e, t);
    assert Tidy(s);
    hide Core, Apply, Enabled, Tidy;
  }

  /** A new notice is for a completed job that had none. */
  lemma StepNotices(s: State, e: Event)
    requires Core(s) && NoticesOk(s) && Enabled(s, e)
    ensures NoticesOk(Apply(s, e))
  {
    StepLasts(s, e);
    NewNotice(s, e);
    hide Core, Apply, Enabled;
    var n := Apply(s, e);
    forall a | 0 <= a < |n.notices| ensures n.notices[a] in n.rows && n.rows[n.notices[a]].status == Completed {
      assert a < |s.notices| ==> n.notices[a] == s.notices[a];
    }
    hide Lasts;
    forall t, a | t in n.workers && n.workers[t].phase.Notify? && 0 <= a < |n.notices|
      ensures n.notices[a] != n.workers[t].job
    {
      NotifiersApart(s, e, t);
    }
  }

  /** A status that ends a job is that of its run. */
  predicate EndOk(s: State, j: nat) {
    j in s.rows ==>
      && (s.rows[j].status == Completed ==> j in s.ran && s.ran[j])
      && (s.rows[j].status == Failed ==> s.rows[j].note == Interrupted || (j in s.ran && !s.ran[j]))
  }

  ghost predicate RanOk(s: State) {
    && (forall j :: EndOk(s, j))
    && (forall t {:trigger s.workers[t]} :: t in s.workers && s.workers[t].phase.Write? ==>
          && s.workers[t].job in s.ran && s.ran[s.workers[t].job] == s.workers[t].phase.ok
          && s.workers[t].phase.note != Interrupted)
  }

  lemma RanAfter(s: State, e: Event)
    requires Enabled(s, e)
    ensures Apply(s, e).ran == if e.Ran? then s.ran[s.workers[e.t].job := e.ok] else s.ran
  {
    hide Written, AfterWrite, OutcomeNote, Repair, Guarded;
    if e.Wrote? {
    } else if WorkerOf(e).Some? {
    } else if e.Crashed? || e.Repaired? {
    } else {
    }
  }

  lemma WriteEnds(s: State, e: Event, t: nat, j: nat)
    requires Core(s) && RanOk(s) && Enabled(s, e) && (e == Wrote(t) || (e.Synced? && e.t == t))
    ensures EndOk(Apply(s, e), j)
  {
    CoreGives(s, t);
    assert EndOk(s, j);
    RanAfter(s, e);
    hide Core, AfterWrite;
  }

  lemma RanEnds(s: State, e: Event, j: nat)
    requires Core(s) && RanOk(s) && Enabled(s, e)
    ensures EndOk(Apply(s, e), j)
  {
    assert EndOk(s, j);
    RanAfter(s, e);
    if e.Wrote? || e.Synced? {
      hide Core, RanOk, Apply;
      WriteEnds(s, e, e.t, j);
    } else if e.Marked? || e.MarkBroke? || e.Repaired? || e.Inserted? {
      hide Core, RanOk;
      RowEnds(s, e, j);
    } else {
      if e.Ran? { CoreGives(s, e.t); }
      RowsUntouched(s, e);
      hide Core, Apply;
    }
  }

  lemma RowEnds(s: State, e: Event, j: nat)
    requires EndOk(s, j) && Enabled(s, e) && (e.Marked? || e.MarkBroke? || e.Repaired? || e.Inserted?)
    ensures EndOk(Apply(s, e), j)
  {
  }

  /** A worker about to write has its own result. */
  lemma RanWorkers(s: State, e: Event, t: nat)
    requires Core(s) && RanOk(s) && Enabled(s, e) && t in Apply(s, e).workers && Apply(s, e).workers[t].phase.Write?
    ensures var n := Apply(s, e);
      && n.workers[t].job in n.ran && n.ran[n.workers[t].job] == n.workers[t].phase.ok
      && n.workers[t].phase.note != Interrupted
  {
    OldWorker(s, e, t);
    RanAfter(s, e);
    assert Tidy(s);
    if WorkerOf(e) == Some(t) {
      MovesToWrite(s, e, t);
    } else if WorkerOf(e).Some? {
      MovedWorker(s, e, t);
    } else if t !in s.workers {
      FreshWorks(s, e, t);
    }
    hide Core, Apply, Enabled, EndOk;
  }

  lemma MovesToWrite(s: State, e: Event, t: nat)
    requires Enabled(s, e) && WorkerOf(e) == Some(t) && t in Apply(s, e).workers && Apply(s, e).workers[t].phase.Write?
    ensures e.Ran? && s.workers[t].job == Apply(s, e).workers[t].job && Apply(s, e).workers[t].phase.ok == e.ok
    ensures Apply(s, e).workers[t].phase.note != Interrupted
  {
    hide Written;
  }

  lemma FreshWorks(s: State, e: Event, t: nat)
    requires Enabled(s, e) && WorkerOf(e).None? && t in Apply(s, e).workers && t !in s.workers
    ensures !Apply(s, e).workers[t].phase.Write?
  {
  }

  lemma StepRan(s: State, e: Event)
    requires Core(s) && RanOk(s) && Enabled(s, e)
    ensures RanOk(Apply(s, e))
  {
    hide Core, Apply, Enabled, EndOk;
    var n := Apply(s, e);
    forall j ensures EndOk(n, j) {
      RanEnds(s, e, j);
    }
    forall t | t in n.workers && n.workers[t].phase.Write?
      ensures n.workers[t].job in n.ran && n.ran[n.workers[t].job] == n.workers[t].phase.ok
      ensures n.workers[t].phase.note != Interrupted
    {
      RanWorkers(s, e, t);
    }
  }

  // ---- Whole runs --------------------------------------------------------------------------------

  ghost predicate Good(s: State) {
    Core(s) && CancelOk(s) && NoticesOk(s) && RanOk(s)
  }

  lemma {:induction false} RunGood(s: State, es: seq<Event>)
    requires Good(s) && Run(s, es)
    ensures Good(Final(s, es)) && Lasts(s, Final(s, es))
    decreases |es|
  {
    hide Core, CancelOk, NoticesOk, RanOk, Apply, Enabled;
    if es != [] {
      StepRan(s, es[0]);
      StepKeeps(s, es[0]);
      StepCancels(s, es[0]);
      StepNotices(s, es[0]);
      StepLasts(s, es[0]);
      RunGood(Apply(s, es[0]), es[1..]);
    }
  }

  lemma ReachableGood(s: State, n: State)
    requires Reaches(START, s) && Reaches(s, n)
    ensures Good(s) && Good(n) && Lasts(s, n)
  {
    hide Apply, Enabled;
    assert Tidy(START);
    var es :| Run(START, es) && Final(START, es) == s;
    RunGood(START, es);
    var more :| Run(s, more) && Final(s, more) == n;
    RunGood(s, more);
  }

  lemma ReachesSelf(s: State)
    ensures Reaches(s, s)
  {
    assert Run(s, []) && Final(s, []) == s;
  }

  /** A row leaves running at most once, whoever gets there first. */
  lemma TerminalForever(s: State, n: State, j: nat)
    requires Reaches(START, s) && Reaches(s, n) && j in s.rows && s.rows[j].status != Running
    ensures j in n.rows && n.rows[j].status == s.rows[j].status
  {
    hide Good;
    ReachableGood(s, n);
  }

  /** Over every interleaving, with crashes, repairs and cancel requests: a row is
      completed only if its run succeeded, and failed only if its run failed or
      a restart interrupted it. */
  lemma EndsAsRan(s: State, j: nat)
    requires Reaches(START, s) && j in s.rows
    ensures s.rows[j].status == Completed ==> j in s.ran && s.ran[j]
    ensures s.rows[j].status == Failed ==> s.rows[j].note == Interrupted || (j in s.ran && !s.ran[j])
  {
    ReachesSelf(s);
    ReachableGood(s, s);
    assert EndOk(s, j);
  }

  /** Nobody asked to cancel the job and no crash interrupted it. */
  ghost predicate LeftAlone(s: State, j: nat) {
    && (!s.up ==> s.rows == map[])
    && (j in s.rows ==> s.rows[j].status != Cancelled && s.rows[j].note != Interrupted)
    && (forall h :: h in s.handlers ==> s.handlers[h].job != j)
  }

  lemma WorkerAlone(s: State, e: Event, t: nat, j: nat)
    requires Core(s) && RanOk(s) && LeftAlone(s, j) && Enabled(s, e) && WorkerOf(e) == Some(t)
    ensures LeftAlone(Apply(s, e), j)
  {
    CoreGives(s, t);
    if e.Wrote? || e.Synced? {
      hide Core, AfterWrite, OutcomeNote, EndOk;
    } else {
      RowsUntouched(s, e);
      hide Core, RanOk, Written, AfterWrite, OutcomeNote;
    }
  }

  lemma StepAlone(s: State, e: Event, j: nat)
    requires Core(s) && RanOk(s) && LeftAlone(s, j) && Enabled(s, e)
    requires e != Crashed && (e.CancelAsked? ==> e.job != j)
    ensures LeftAlone(Apply(s, e), j)
  {
    hide Core, RanOk;
    if WorkerOf(e).Some? {
      hide Apply, Enabled, LeftAlone;
      WorkerAlone(s, e, WorkerOf(e).value, j);
    }
  }

  lemma {:induction false} RunAlone(s: State, es: seq<Event>, j: nat)
    requires Good(s) && LeftAlone(s, j) && Run(s, es)
    requires forall e :: e in es ==> e != Crashed && (e.CancelAsked? ==> e.job != j)
    ensures LeftAlone(Final(s, es), j)
    decreases |es|
  {
    hide Core, CancelOk, NoticesOk, RanOk, LeftAlone, Apply, Enabled;
    if es != [] {
      assert es[0] in es && forall e :: e in es[1..] ==> e in es;
      StepAlone(s, es[0], j);
      assert Run(Apply(s, es[0]), []) && Final(Apply(s, es[0]), []) == Apply(s, es[0]);
      RunGood(s, [es[0]]);
      RunAlone(Apply(s, es[0]), es[1..], j);
    }
  }

  /** In a run without crashes, a job that nobody asks to cancel leaves running
      exactly as its run ended: completed on success and failed on failure. */
  lemma EndsExact(es: seq<Event>, j: nat)
    requires Run(START, es) && forall e :: e in es ==> e != Crashed && (e.CancelAsked? ==> e.job != j)
    requires j in Final(START, es).rows && Final(START, es).rows[j].status != Running
    ensures var s := Final(START, es);
      j in s.ran && s.rows[j].status == if s.ran[j] then Completed else Failed
  {
    assert Tidy(START);
    assert Good(START) && LeftAlone(START, j);
    hide Core, CancelOk, NoticesOk, Apply, Enabled;
    RunGood(START, es);
    RunAlone(START, es, j);
    assert EndOk(Final(START, es), j);
  }

  /** A cancel request answered 200 means cancelled for good, and that every
      goroutine still on the job has had its context cancelled. */
  lemma CancelForever(s: State, n: State, a: nat)
    requires Reaches(START, s) && Reaches(s, n) && a < |s.replies| && s.replies[a].1 == Cancelling
    ensures var j := s.replies[a].0;
      j in n.rows && n.rows[j].status == Cancelled
      && forall t :: t in s.workers && s.workers[t].job == j ==> t in s.killed
  {
    hide Core, NoticesOk;
    ReachableGood(s, n);
  }

  /** A completion notice is sent at most once per job, and only for rows that
      are completed and stay so. */
  lemma NoticeMeansCompleted(s: State, n: State, a: nat)
    requires Reaches(START, s) && Reaches(s, n) && a < |s.notices|
    ensures s.notices[a] in n.rows && n.rows[s.notices[a]].status == Completed
    ensures forall b :: 0 <= b < |s.notices| && b != a ==> s.notices[b] != s.notices[a]
  {
    hide Core, CancelOk;
    ReachableGood(s, n);
  }

  /** While the server is up a running row has exactly one goroutine ahead of
      its completion update, unless a failed startup repair left it behind. */
  lemma RunningIsWorked(s: State, j: nat)
    requires Reaches(START, s) && s.up && j in s.rows && s.rows[j].status == Running
    ensures Worked(s, j) <==> j !in s.stuck
    ensures forall t, u :: t in s.workers && u in s.workers && s.workers[t].job == j && s.workers[u].job == j ==> t == u
  {
    ReachesSelf(s);
    ReachableGood(s, s);
    assert JobOk(s, j) && Tidy(s);
    if t :| t in s.workers && s.workers[t].job == j && Busy(s.workers[t]) {
      assert WorkerOk(s, t);
    }
  }

  /** The deploy job's updates need no guard: its job is never registered, so no
      cancel request gets past the registry, and its row is still running when
      it writes. With a registered deploy job the update would undo a cancel. */
  lemma DeployNeedsNoGuard(s: State, t: nat)
    requires Reaches(START, s) && At(s, t) && s.workers[t].kind == Deploy && s.workers[t].phase.Write?
    ensures var w := s.workers[t]; var row := s.rows[w.job];
      && w.job !in s.registry && row.status == Running
      && Written(row, Deploy, w.phase.ok, w.phase.note) == Guarded(row, Outcome(w.phase.ok), w.phase.note)
    ensures forall row: Row, kind, ok, note :: row.status == Cancelled ==>
      (Written(row, kind, ok, note).status == Cancelled <==> kind != Deploy)
  {
    ReachesSelf(s);
    ReachableGood(s, s);
    CoreGives(s, t);
  }

  lemma StuckAfter(s: State, e: Event)
    requires Enabled(s, e) && s.stuck == {} && e != Repaired(false)
    ensures Apply(s, e).stuck == {}
  {
    hide Written, AfterWrite, OutcomeNote, Repair, Guarded;
  }

  /** If every startup repair goes through, no row is ever left behind. */
  lemma {:induction false} NeverStuck(s: State, es: seq<Event>)
    requires s.stuck == {} && Run(s, es) && Repaired(false) !in es
    ensures Final(s, es).stuck == {}
    decreases |es|
  {
    if es != [] {
      assert es[0] in es;
      assert forall e :: e in es[1..] ==> e in es;
      StuckAfter(s, es[0]);
      hide Apply, Enabled;
      NeverStuck(Apply(s, es[0]), es[1..]);
    }
  }

  lemma {:induction false} RunSnoc(s: State, es: seq<Event>, e: Event)
    requires Run(s, es) && Enabled(Final(s, es), e)
    ensures Run(s, es + [e]) && Final(s, es + [e]) == Apply(Final(s, es), e)
    decreases |es|
  {
    hide Apply, Enabled;
    if es == [] {
      var n := Apply(s, e);
      assert Run(n, []) && Final(n, []) == n;
      assert ([] + [e])[0] == e && ([] + [e])[1..] == [];
    } else {
      assert (es + [e])[1..] == es[1..] + [e] && (es + [e])[0] == es[0];
      RunSnoc(Apply(s, es[0]), es[1..], e);
    }
  }

  lemma ReachesStep(s: State, n: State, e: Event)
    requires Reaches(s, n) && Enabled(n, e)
    ensures Reaches(s, Apply(n, e))
  {
    hide Apply, Enabled;
    var es :| Run(s, es) && Final(s, es) == n;
    RunSnoc(s, es, e);
  }

  // ---- The code ------------------------------------------------------------------------------------

  /** The process-wide registry; contexts are named by their goroutine. */
  class CancelRegistry {
    var cancels: map<nat, nat>
    var killed: set<nat>

    constructor ()
      ensures cancels == map[] && killed == {}
    {
      cancels, killed := map[], {};
    }

    method RegisterCancel(job: nat, context: nat)
      modifies this
      ensures cancels == old(cancels)[job := context] && killed == old(killed)
    {
      cancels := cancels[job := context];
    }

    method UnregisterCancel(job: nat)
      modifies this
      ensures cancels == old(cancels) - {job} && killed == old(killed)
    {
      cancels := cancels - {job};
    }

    method HasCancel(job: nat) returns (ok: bool)
      ensures ok <==> job in cancels
    {
      ok := job in cancels;
    }

    method CancelJob(job: nat) returns (found: bool)
      modifies this
      ensures cancels == old(cancels) && (found <==> job in cancels)
      ensures killed == old(killed) + if job in cancels then {cancels[job]} else {}
    {
      if job !in cancels {
        return false;
      }
      killed := killed + {cancels[job]};
      return true;
    }
  }

  class Server {
    const registry: CancelRegistry
    var rows: map<nat, Row>
    var nextJob: nat
    var notices: seq<nat>
    ghost var now: State

    ghost predicate Valid()
      reads this, registry
    {
      && rows == now.rows && nextJob == now.nextJob && notices == now.notices
      && registry.cancels == now.registry && registry.killed == now.killed
    }

    constructor ()
      ensures Valid() && now == START && fresh(registry)
    {
      registry := new CancelRegistry();
      rows, nextJob, notices, now := map[], 0, [], START;
    }

    ghost method Take(e: Event)
      requires Enabled(now, e)
      modifies this`now
      ensures now == Apply(old(now), e)
      ensures forall s :: Reaches(s, old(now)) ==> Reaches(s, now)
    {
      hide Apply, Enabled, Reaches;
      forall s | Reaches(s, now) ensures Reaches(s, Apply(now, e)) {
        ReachesStep(s, now, e);
      }
      now := Apply(now, e);
    }

    /** INSERT of a running row, and the goroutine that works on it. */
    method CreateJob(kind: Kind) returns (job: nat, ghost t: nat)
      requires Valid() && now.up && Core(now)
      modifies this
      ensures Valid() && job !in old(rows) && rows == old(rows)[job := Row(kind, Running, NoNote)]
      ensures At(now, t) && now.workers[t] == Worker(job, kind, if kind == Deploy then Work else Register)
      ensures notices == old(notices)
      ensures forall s :: Reaches(s, old(now)) ==> Reaches(s, now)
    {
      hide Reaches;
      Bounds(now);
      job, t := nextJob, now.nextThread;
      Take(Inserted(kind));
      rows := rows[job := Row(kind, Running, NoNote)];
      nextJob := nextJob + 1;
    }

    /** The last update of a deploy job, without a guard. */
    method FinishDeploy(ghost t: nat, job: nat, ok: bool)
      requires Valid() && Core(now) && At(now, t) && now.workers[t] == Worker(job, Deploy, Work)
      modifies this
      ensures Valid() && t !in now.workers && notices == old(notices)
      ensures job in old(rows) && old(rows[job].status) == Running
      ensures rows == old(rows)[job := old(rows[job]).(
        status := if ok then Completed else Failed, note := if ok then NoNote else RunError)]
      ensures forall s :: Reaches(s, old(now)) ==> Reaches(s, now)
    {
      CoreGives(now, t);
      hide Reaches, Core;
      Take(Ran(t, ok, true));
      Take(Wrote(t));
      var note := if ok then NoNote else RunError;
      rows := rows[job := rows[job].(status := if ok then Completed else Failed, note := note)];
    }

    /** UPDATE ... WHERE id=? AND status='running', with the number of rows affected. */
    method UpdateRunning(job: nat, status: Status, note: Note) returns (affected: nat)
      requires job in rows
      modifies this`rows
      ensures rows == if affected == 0 then old(rows)
        else old(rows)[job := old(rows[job]).(status := status, note := note)]
      ensures rows == old(rows)[job := Guarded(old(rows[job]), status, note)]
      ensures affected == if old(rows[job].status) == Running then 1 else 0
    {
      if rows[job].status == Running {
        rows := rows[job := rows[job].(status := status, note := note)];
        affected := 1;
      } else {
        assert rows[job := rows[job]] == rows;
        affected := 0;
      }
    }

    /** main: rows left running by a crash are failed before anything starts. */
    method RepairAtStart(ok: bool)
      requires Valid() && !now.up
      modifies this
      ensures Valid() && now.up && Reaches(old(now), now)
      ensures rows.Keys == old(rows).Keys
      ensures forall j :: j in rows ==>
        (rows[j] == if ok && old(rows)[j].status == Running
                    then old(rows)[j].(status := Failed, note := Interrupted) else old(rows)[j])
    {
      ReachesSelf(now);
      Take(Repaired(ok));
      if ok {
        rows := map j | j in rows :: Guarded(rows[j], Failed, Interrupted);
      }
    }

    /** handleCancelJob, when nothing intervenes. */
    method HandleCancelJob(ghost h: nat, job: nat) returns (reply: Reply)
      requires Valid() && now.up && h !in now.handlers && Core(now)
      modifies this, registry
      ensures Valid() && now.workers == old(now.workers) && now.handlers == old(now.handlers)
      ensures forall s :: Reaches(s, old(now)) ==> Reaches(s, now)
      ensures registry.cancels == old(registry.cancels) && notices == old(notices) && now.up
      ensures now.replies == old(now.replies) + [(job, reply)] && (reply == Cancelling || reply == Conflict)
      ensures reply == Cancelling <==> job in registry.cancels && job in old(rows) && old(rows)[job].status == Running
      ensures reply == Cancelling ==>
        rows == old(rows)[job := old(rows)[job].(status := Cancelled, note := CancelledByUser)]
      ensures reply == Cancelling ==> registry.killed == old(registry.killed) + {registry.cancels[job]}
      ensures reply == Conflict ==> rows == old(rows) && registry.killed == old(registry.killed)
    {
      hide Reaches, Core, Written, AfterWrite, OutcomeNote, Repair;
      ghost var before := now;
      Take(CancelAsked(h, job));
      var has := registry.HasCancel(job);
      if !has {
        return Conflict;
      }
      RegisteredJob(before, job);
      var n := MarkCancelled(h, job);
      assert before.handlers[h := Handler(job, false)] - {h} == before.handlers;
      if n == 0 {
        return Conflict;
      }
      assert before.handlers[h := Handler(job, false)][h := Handler(job, true)] - {h} == before.handlers;
      Take(Killed(h));
      var found := registry.CancelJob(job);
      return Cancelling;
    }

    /** The request's guarded update. */
    method MarkCancelled(ghost h: nat, job: nat) returns (affected: nat)
      requires Valid() && HandledAt(now, h) && now.handlers[h] == Handler(job, false)
      modifies this`now, this`rows
      ensures Valid() && job in old(rows) && affected == (if old(rows[job].status) == Running then 1 else 0)
      ensures rows == if affected == 0 then old(rows)
        else old(rows)[job := old(rows[job]).(status := Cancelled, note := CancelledByUser)]
      ensures now.workers == old(now.workers) && now.up == old(now.up)
      ensures now.replies == old(now.replies) + if affected == 0 then [(job, Conflict)] else []
      ensures now.handlers ==
        if affected == 0 then old(now.handlers) - {h} else old(now.handlers)[h := Handler(job, true)]
      ensures forall s :: Reaches(s, old(now)) ==> Reaches(s, now)
    {
      hide Reaches;
      Take(Marked(h));
      affected := UpdateRunning(job, Cancelled, CancelledByUser);
    }

    /** The goroutine of a scheduled or run-now backup from its registration on,
        with a cancel request coming in while rustic runs if `cancelled`. */
    method RunBackup(kind: Kind, t: nat, job: nat, ok: bool, synced: bool, cancelled: bool, ghost h: nat)
      requires Valid() && Core(now) && At(now, t) && now.workers[t] == Worker(job, kind, Register) && kind != Deploy
      requires rows[job].status == Running && h !in now.handlers
      modifies this, registry
      ensures Valid() && Reaches(old(now), now) && t !in now.workers && job !in registry.cancels
      ensures rows == old(rows)[job := if cancelled then Row(kind, Cancelled, CancelledByUser)
                                       else if !ok then Row(kind, Failed, RunError)
                                       else Row(kind, Completed, if synced then NoNote else SyncFailed)]
      ensures notices == old(notices) + if ok && !cancelled then [job] else []
      ensures cancelled ==> t in registry.killed
    {
      hide Reaches, Core;
      ReachesSelf(now);
      CoreGives(now, t);
      StepKeeps(now, Registered(t));
      Take(Registered(t));
      registry.RegisterCancel(job, t);
      if cancelled {
        var reply := HandleCancelJob(h, job);
      }
      Finish(kind, t, job, ok, synced);
    }

    method Finish(kind: Kind, ghost t: nat, job: nat, ok: bool, synced: bool)
      requires Valid() && At(now, t) && now.workers[t] == Worker(job, kind, Work) && kind != Deploy
      modifies this, registry
      ensures Valid() && t !in now.workers && job !in registry.cancels && registry.killed == old(registry.killed)
      ensures forall s :: Reaches(s, old(now)) ==> Reaches(s, now)
      ensures old(rows[job].status) != Running ==> rows == old(rows)
      ensures old(rows[job].status) == Running ==> rows == old(rows)[job := old(rows[job]).(
        status := if ok then Completed else Failed,
        note := if !ok then RunError else if synced then NoNote else SyncFailed)]
      ensures notices == old(notices) + if old(rows[job].status) == Running && ok then [job] else []
    {
      hide Reaches;
      var n := Complete(kind, t, job, ok, synced);
      if n > 0 && ok {
        Announce(kind, t, job, synced);
      }
      Take(Unregistered(t));
      registry.UnregisterCancel(job);
    }

    /** rustic ends and the guarded update records how. */
    method Complete(kind: Kind, ghost t: nat, job: nat, ok: bool, synced: bool) returns (affected: nat)
      requires Valid() && At(now, t) && now.workers[t] == Worker(job, kind, Work) && kind != Deploy
      modifies this`now, this`rows
      ensures Valid() && At(now, t)
        && now.workers[t] == Worker(job, kind, if affected > 0 && ok then Notify else Unregister)
      ensures forall s :: Reaches(s, old(now)) ==> Reaches(s, now)
      ensures rows == old(rows)[job := Guarded(old(rows[job]), Outcome(ok), OutcomeNote(kind, ok, synced))]
      ensures affected == if old(rows[job].status) == Running then 1 else 0
    {
      hide Reaches;
      Take(Ran(t, ok, synced));
      Take(Wrote(t));
      affected := UpdateRunning(job, Outcome(ok), OutcomeNote(kind, ok, synced));
    }

    /** The completion notice, and for run-now the catalog sync. */
    method Announce(kind: Kind, ghost t: nat, job: nat, synced: bool)
      requires Valid() && At(now, t) && now.workers[t] == Worker(job, kind, Notify)
      modifies this
      ensures Valid() && At(now, t) && now.workers[t] == Worker(job, kind, Unregister)
      ensures forall s :: Reaches(s, old(now)) ==> Reaches(s, now)
      ensures job in old(rows) && rows == if kind == RunNow && !synced
        then old(rows)[job := old(rows[job]).(note := SyncFailed)] else old(rows)
      ensures notices == old(notices) + [job]
    {
      hide Reaches;
      Take(Notified(t));
      notices := notices + [job];
      if kind == RunNow {
        Take(Synced(t, synced));
        if !synced {
          rows := rows[job := rows[job].(note := SyncFailed)];
        }
      }
    }
  }
}