/** The life of restore jobs over whole runs with crashes at any step: Initiate
    and run (api/internal/restore/restore.go:63-149), reconciliation and resume
    (api/internal/restore/resume.go:88-127, 162-191). One event is one database
    statement, one step of the outside world, or the start or end of a
    goroutine. */
module RestoreLifecycle {
  import opened Wrappers
  import opened RestoreHook
  import J = JsonPaths

  /** What a restore was asked to do, or what a run is doing. */
  datatype Ask = Ask(snapshot: nat, paths: seq<string>, destination: string)

  /** What a worker goroutine does next. */
  datatype Phase =
    | Load                                 // resumeAfterRestart: read the row
    | Clear(ask: Ask)                      // resumeAfterRestart: forget the old batch job
    | Prepare(ask: Ask)                    // run: plan, snapshot, configuration
    | Request(ask: Ask)                    // run: status warmup_requested, start rustic
    | Running(id: string)                  // rustic runs; the hook holds this batch job ID
    | Claim(id: string)                    // the hook saw the sentinel
    | Send(id: string)                     // the hook owns the notification
    | Stamp                                // run: completed_at
    | Complete                             // run: status completed
    | Announce                             // run: the completion notice
    | Fail                                 // status failed

  datatype Worker = Worker(job: nat, phase: Phase, expired: bool)

  datatype Todo = Todo(job: nat, batch: Option<string>)

  /** The process and the table, with histories: what each job was asked to do,
      the runs of rustic, the notices, the jobs spawned for again, and the jobs
      whose last status was lost to an expired deadline (now and ever). */
  datatype State = State(
    rows: map<nat, Row>,
    snapshots: set<nat>,
    workers: map<nat, Worker>,
    scanned: bool,
    todo: seq<Todo>,
    nextJob: nat,
    nextThread: nat,
    asked: map<nat, Ask>,
    runs: seq<(nat, Ask)>,
    warmNotices: seq<(nat, string)>,
    doneNotices: seq<nat>,
    resumes: multiset<nat>,
    lost: set<nat>,
    dropped: set<nat>
  )

  datatype Event =
    | Initiate(ask: Ask)
    | Prepared(t: nat, ok: bool)
    | Requested(t: nat)
    | Line(t: nat, line: string)
    | Claimed(t: nat)
    | Sent(t: nat)
    | Exited(t: nat, ok: bool)
    | Stamped(t: nat)
    | Finished(t: nat)
    | Announced(t: nat)
    | MarkedFailed(t: nat)
    | Loaded(t: nat)
    | Cleared(t: nat)
    | Expired(t: nat)
    | SnapshotDeleted(snapshot: nat)
    | Crashed
    | Scanned(order: seq<nat>)
    | Triaged

  function Start(snapshots: set<nat>): State {
    State(map[], snapshots, map[], false, [], 0, 0, map[], [], [], [], multiset{}, {}, {})
  }

  predicate At(s: State, t: nat) {
    t in s.workers && s.workers[t].job in s.rows
  }

  /** The rows the reconciliation query returns. */
  function Interrupted(rows: map<nat, Row>): set<nat> {
    set j | j in rows && NonTerminal(rows[j].status)
  }

  predicate Distinct(s: seq<nat>) {
    forall a, b :: 0 <= a < b < |s| ==> s[a] != s[b]
  }

  function Elements(s: seq<nat>): set<nat> {
    set j | j in s
  }

  /** With the barrier, requests are served only after the reconciliation query
      has run. The code starts both without waiting (api/cmd/server/main.go:72). */
  predicate Enabled(s: State, e: Event, barrier: bool) {
    match e
    case Initiate(ask) => ask.snapshot in s.snapshots && (barrier ==> s.scanned)
    case Prepared(t, ok) => At(s, t) && s.workers[t].phase.Prepare?
                            && (ok ==> s.workers[t].phase.ask.snapshot in s.snapshots)
    case Requested(t) => At(s, t) && s.workers[t].phase.Request?
    case Line(t, _) => At(s, t) && s.workers[t].phase.Running?
    case Claimed(t) => At(s, t) && s.workers[t].phase.Claim?
    case Sent(t) => At(s, t) && s.workers[t].phase.Send?
    case Exited(t, _) => At(s, t) && s.workers[t].phase.Running?
    case Stamped(t) => At(s, t) && s.workers[t].phase.Stamp?
    case Finished(t) => At(s, t) && s.workers[t].phase.Complete?
    case Announced(t) => At(s, t) && s.workers[t].phase.Announce?
    case MarkedFailed(t) => At(s, t) && s.workers[t].phase.Fail?
    case Loaded(t) => At(s, t) && s.workers[t].phase.Load?
    case Cleared(t) => At(s, t) && s.workers[t].phase.Clear?
    case Expired(t) => At(s, t) && !s.workers[t].phase.Load? && !s.workers[t].phase.Clear?
    case SnapshotDeleted(snapshot) => snapshot in s.snapshots
    case Crashed => true
    case Scanned(order) => !s.scanned && Distinct(order) && Elements(order) == Interrupted(s.rows)
    case Triaged => s.todo != []
  }

  /** A worker moves on, changing its job's row. */
  function Move(s: State, t: nat, phase: Phase, row: Row): State
    requires At(s, t)
  {
    s.(rows := s.rows[s.workers[t].job := row], workers := s.workers[t := s.workers[t].(phase := phase)])
  }

  /** A worker ends, changing its job's row. */
  function Leave(s: State, t: nat, row: Row): State
    requires At(s, t)
  {
    s.(rows := s.rows[s.workers[t].job := row], workers := s.workers - {t})
  }

  function OnHookLine(s: State, t: nat, id: string, line: string): State
    requires At(s, t)
  {
    var w, row := s.workers[t], s.rows[s.workers[t].job];
    match Classify(line)
    case Sentinel => Move(s, t, Claim(id), WithStatus(row, RetrievalComplete, !w.expired))
    case BatchJob(found) => Move(s, t, Running(if id == "" then found else id), WithBatch(row, found, !w.expired))
    case Other => s
  }

  /** The row as resumeAfterRestart reads it. */
  function Recall(row: Row): Option<Ask> {
    if row.snapshot.None? then None
    else
      match J.Decode(row.pathsText)
      case None => None
      case Some(paths) => Some(Ask(row.snapshot.value, paths, row.destination))
  }

  function Unlink(row: Row, snapshot: nat): Row {
    if row.snapshot == Some(snapshot) then row.(snapshot := None) else row
  }

  function NewRow(ask: Ask): Row {
    Row(Some(ask.snapshot), J.Encode(ask.paths), ask.destination, Queued, None, false, false)
  }

  function Spawn(s: State, job: nat, phase: Phase): State {
    s.(workers := s.workers[s.nextThread := Worker(job, phase, false)], nextThread := s.nextThread + 1)
  }

  function Triage(s: State): State
    requires s.todo != []
  {
    var head := s.todo[0];
    var rest := s.(todo := s.todo[1..]);
    if head.batch.None? then
      if head.job in s.rows then rest.(rows := s.rows[head.job := WithStatus(s.rows[head.job], Failed, true)]) else rest
    else Spawn(rest, head.job, Load).(resumes := s.resumes + multiset{head.job})
  }

  function Apply(s: State, e: Event): State
    requires Enabled(s, e, false)
  {
    match e
    case Initiate(ask) =>
      Spawn(s, s.nextJob, Prepare(ask)).(
        rows := s.rows[s.nextJob := NewRow(ask)], asked := s.asked[s.nextJob := ask], nextJob := s.nextJob + 1)
    case Prepared(t, ok) => Move(s, t, if ok then Request(s.workers[t].phase.ask) else Fail, s.rows[s.workers[t].job])
    case Requested(t) =>
      var w, row := s.workers[t], s.rows[s.workers[t].job];
      Move(s, t, Running(""), WithStatus(row, WarmupRequested, !w.expired)).(runs := s.runs + [(w.job, w.phase.ask)])
    case Line(t, line) => OnHookLine(s, t, s.workers[t].phase.id, line)
    case Claimed(t) =>
      var w, row := s.workers[t], s.rows[s.workers[t].job];
      if row.notified then Move(s, t, Running(w.phase.id), row)
      else Move(s, t, Send(w.phase.id), row.(notified := true))
    case Sent(t) =>
      var w := s.workers[t];
      Move(s, t, Running(w.phase.id), s.rows[w.job]).(warmNotices := s.warmNotices + [(w.job, w.phase.id)])
    case Exited(t, ok) => Move(s, t, if ok then Stamp else Fail, s.rows[s.workers[t].job])
    case Stamped(t) =>
      var w, row := s.workers[t], s.rows[s.workers[t].job];
      Move(s, t, Complete, if w.expired then row else row.(stamped := true))
    case Finished(t) =>
      var w, row := s.workers[t], s.rows[s.workers[t].job];
      var done := Move(s, t, Announce, WithStatus(row, Completed, !w.expired));
      if w.expired then done.(lost := s.lost + {w.job}, dropped := s.dropped + {w.job}) else done
    case Announced(t) =>
      Leave(s, t, s.rows[s.workers[t].job]).(doneNotices := s.doneNotices + [s.workers[t].job])
    case MarkedFailed(t) => Leave(s, t, WithStatus(s.rows[s.workers[t].job], Failed, true))
    case Loaded(t) =>
      var row := s.rows[s.workers[t].job];
      Move(s, t, match Recall(row) case None => Fail case Some(ask) => Clear(ask), row)
    case Cleared(t) =>
      Move(s, t, Prepare(s.workers[t].phase.ask), s.rows[s.workers[t].job].(batch := None))
    case Expired(t) => s.(workers := s.workers[t := s.workers[t].(expired := true)])
    case SnapshotDeleted(snapshot) =>
      s.(snapshots := s.snapshots - {snapshot}, rows := map j | j in s.rows :: Unlink(s.rows[j], snapshot))
    case Crashed => s.(workers := map[], scanned := false, todo := [], lost := {})
    case Scanned(order) =>
      s.(scanned := true, todo := seq(|order|, i requires 0 <= i < |order| =>
        Todo(order[i], if order[i] in s.rows then s.rows[order[i]].batch else None)))
    case Triaged => Triage(s)
  }

  // ---- Runs ---------------------------------------------------------------------------

  ghost predicate Run(s: State, es: seq<Event>, barrier: bool)
    decreases |es|
  {
    es == [] || (Enabled(s, es[0], barrier) && Run(Apply(s, es[0]), es[1..], barrier))
  }

  function Final(s: State, es: seq<Event>, barrier: bool): State
    requires Run(s, es, barrier)
    decreases |es|
  {
    if es == [] then s else Final(Apply(s, es[0]), es[1..], barrier)
  }

  // ---- The invariant --------------------------------------------------------------------

  predicate Live(w: Worker) {
    !w.phase.Announce?
  }

  ghost predicate Serves(s: State, t: nat, j: nat) {
    t in s.workers && s.workers[t].job == j
  }

  ghost predicate Served(s: State, j: nat) {
    exists t :: Serves(s, t, j) && Live(s.workers[t])
  }

  ghost predicate Waiting(s: State, j: nat) {
    exists i :: 0 <= i < |s.todo| && s.todo[i].job == j
  }

  /** What a resumed run may be doing for a job. */
  predicate Meant(asked: Ask, ask: Ask) {
    && ask.snapshot == asked.snapshot && ask.destination == asked.destination
    && (ask.paths == asked.paths || Some(ask.paths) == J.Decode(J.Encode(asked.paths)))
  }

  /** The captured batch job ID is the stored one unless the deadline passed. */
  predicate IdsMatch(w: Worker, row: Row, id: string) {
    row.batch == (if id == "" then None else Some(id)) || (w.expired && row.batch.None?)
  }

  predicate PhaseOk(w: Worker, row: Row, asked: Ask) {
    match w.phase
    case Load => true
    case Clear(ask) => Meant(asked, ask)
    case Prepare(ask) => Meant(asked, ask) && row.batch.None?
    case Request(ask) => Meant(asked, ask) && row.batch.None?
    case Running(id) => IdsMatch(w, row, id)
    case Claim(id) => IdsMatch(w, row, id)
    case Send(id) => IdsMatch(w, row, id) && row.notified
    case _ => true
  }

  ghost predicate WorkerOk(s: State, t: nat) {
    t in s.workers && var w := s.workers[t];
    && t < s.nextThread && s.scanned && w.job in s.rows && w.job in s.asked && !Waiting(s, w.job)
    && PhaseOk(w, s.rows[w.job], s.asked[w.job])
    && (Live(w) ==> NonTerminal(s.rows[w.job].status) && w.job !in s.lost)
    && (!Live(w) ==> s.rows[w.job].status == Completed || w.job in s.lost)
  }

  predicate RowOk(row: Row, asked: Ask) {
    && row.pathsText == J.Encode(asked.paths) && row.destination == asked.destination
    && (row.snapshot.Some? ==> row.snapshot.value == asked.snapshot)
  }

  ghost predicate JobOk(s: State, j: nat) {
    && j in s.rows
    && j < s.nextJob && j in s.asked && RowOk(s.rows[j], s.asked[j])
    && (s.scanned && NonTerminal(s.rows[j].status) ==> Served(s, j) || Waiting(s, j) || j in s.lost)
  }

  ghost predicate TodoOk(s: State, i: nat) {
    i < |s.todo| && var d := s.todo[i];
    && d.job in s.rows && NonTerminal(s.rows[d.job].status) && d.job !in s.lost
    && d.batch == s.rows[d.job].batch
    && forall k :: 0 <= k < |s.todo| && k != i ==> s.todo[k].job != d.job
  }

  ghost predicate Tidy(s: State) {
    && s.lost <= s.dropped
    && (forall j :: j in s.lost ==> j in s.rows && NonTerminal(s.rows[j].status))
    && (!s.scanned ==> s.todo == [] && s.lost == {})
    && (forall j :: j in s.asked ==> j < s.nextJob)
  }

  /** At most one worker per job. */
  ghost predicate OneEach(s: State) {
    forall t, u {:trigger s.workers[t], s.workers[u]} ::
      t in s.workers && u in s.workers && s.workers[t].job == s.workers[u].job ==> t == u
  }

  ghost predicate Core(s: State) {
    && (forall t {:trigger s.workers[t]} :: t in s.workers ==> WorkerOk(s, t))
    && (forall j {:trigger s.rows[j]} :: j in s.rows ==> JobOk(s, j))
    && (forall i {:trigger s.todo[i]} :: 0 <= i < |s.todo| ==> TodoOk(s, i))
    && Tidy(s) && OneEach(s)
  }

  // ---- Every step keeps it ----------------------------------------------------------------

  /** Worker t takes a step on its job's row, and may end with it. */
  ghost predicate WorkerStep(s: State, n: State, t: nat, row: Row) {
    At(s, t) && s.workers[t].job in s.asked && var j := s.workers[t].job;
    && n.rows == s.rows[j := row] && n.asked == s.asked && n.todo == s.todo && n.scanned == s.scanned
    && n.nextJob == s.nextJob && n.nextThread == s.nextThread
    && (forall u :: u != t ==> (u in n.workers <==> u in s.workers))
    && (forall u :: u != t && u in n.workers ==> n.workers[u] == s.workers[u])
    && s.lost <= n.lost <= s.lost + {j} && s.dropped <= n.dropped && n.lost <= n.dropped
    && RowOk(row, s.asked[j]) && (j in n.lost ==> NonTerminal(row.status))
    && (t in n.workers ==> n.workers[t].job == j && PhaseOk(n.workers[t], row, s.asked[j])
                           && (!Live(n.workers[t]) ==> row.status == Completed || j in n.lost))
    && (NonTerminal(row.status) && j !in n.lost <==> t in n.workers && Live(n.workers[t]))
  }

  lemma OtherWorkers(s: State, n: State, t: nat, row: Row, u: nat)
    requires Core(s) && At(s, t) && s.workers[t].job in s.asked && WorkerStep(s, n, t, row) && u in n.workers
    ensures WorkerOk(n, u)
  {
    hide RowOk, PhaseOk, JobOk, TodoOk;
    assert WorkerOk(s, t) && OneEach(s);
    assert Waiting(n, n.workers[u].job) <==> Waiting(s, n.workers[u].job);
    if u != t {
      assert u in s.workers && n.workers[u] == s.workers[u];
      assert WorkerOk(s, u) && s.workers[u].job != s.workers[t].job;
    }
  }

  lemma OtherJobs(s: State, n: State, t: nat, row: Row, j: nat)
    requires Core(s) && At(s, t) && s.workers[t].job in s.asked && WorkerStep(s, n, t, row) && j in n.rows
    ensures JobOk(n, j)
  {
    hide RowOk, PhaseOk, WorkerOk, TodoOk, OneEach, Tidy;
    assert JobOk(s, j);
    assert Waiting(n, j) <==> Waiting(s, j);
    if j == s.workers[t].job {
      assert NonTerminal(row.status) && j !in n.lost ==> Serves(n, t, j);
    } else {
      ServedAfter(s, n, j);
    }
  }

  lemma WorkerStepKeeps(s: State, n: State, t: nat, row: Row)
    requires Core(s) && At(s, t) && s.workers[t].job in s.asked && WorkerStep(s, n, t, row)
    ensures Core(n)
  {
    hide RowOk, PhaseOk, JobOk;
    assert WorkerOk(s, t) && Tidy(s) && OneEach(s);
    forall u | u in n.workers ensures WorkerOk(n, u) {
      OtherWorkers(s, n, t, row, u);
    }
    forall j | j in n.rows ensures JobOk(n, j) {
      OtherJobs(s, n, t, row, j);
    }
    forall i | 0 <= i < |n.todo| ensures TodoOk(n, i) {
      assert TodoOk(s, i);
      assert Waiting(s, n.todo[i].job);
    }
    assert Tidy(n) && OneEach(n);
  }

  lemma ServedAfter(s: State, n: State, j: nat)
    requires forall u :: u in s.workers && s.workers[u].job == j && Live(s.workers[u])
               ==> u in n.workers && n.workers[u] == s.workers[u]
    ensures Served(s, j) ==> Served(n, j)
  {
    if u :| Serves(s, u, j) && Live(s.workers[u]) {
      assert Serves(n, u, j);
    }
  }

  /** The worker of an enabled event, if it is one of a worker. */
  function WorkerOf(e: Event): Option<nat> {
    match e
    case Prepared(t, _) => Some(t)
    case Requested(t) => Some(t)
    case Line(t, _) => Some(t)
    case Claimed(t) => Some(t)
    case Sent(t) => Some(t)
    case Exited(t, _) => Some(t)
    case Stamped(t) => Some(t)
    case Finished(t) => Some(t)
    case Announced(t) => Some(t)
    case MarkedFailed(t) => Some(t)
    case Loaded(t) => Some(t)
    case Cleared(t) => Some(t)
    case Expired(t) => Some(t)
    case _ => None
  }

  /** Events that leave the row's status open or are those of the hook. */
  lemma RunEvent(s: State, e: Event, t: nat)
    requires Core(s) && Enabled(s, e, false) && WorkerOf(e) == Some(t)
    requires e.Prepared? || e.Requested? || e.Exited? || e.Stamped? || e.Expired?
    ensures Core(Apply(s, e))
  {
    hide J.Encode, J.Decode, Classify, Contains, Core, Tidy, OneEach, Waiting, Served;
    var n, j := Apply(s, e), s.workers[t].job;
    CoreGives(s, t);
    WorkerStepKeeps(s, n, t, n.rows[j]);
  }

  lemma HookEvent(s: State, e: Event, t: nat)
    requires Core(s) && Enabled(s, e, false) && WorkerOf(e) == Some(t)
    requires e.Line?
    ensures Core(Apply(s, e))
  {
    hide J.Encode, J.Decode, Classify, Contains, Core, Tidy, OneEach, Waiting, Served;
    var n, j := Apply(s, e), s.workers[t].job;
    CoreGives(s, t);
    WorkerStepKeeps(s, n, t, n.rows[j]);
  }

  lemma ClaimEvent(s: State, e: Event, t: nat)
    requires Core(s) && Enabled(s, e, false) && WorkerOf(e) == Some(t)
    requires e.Claimed? || e.Sent?
    ensures Core(Apply(s, e))
  {
    hide J.Encode, J.Decode, Classify, Contains, Core, Tidy, OneEach, Waiting, Served;
    var n, j := Apply(s, e), s.workers[t].job;
    CoreGives(s, t);
    WorkerStepKeeps(s, n, t, n.rows[j]);
  }

  lemma EndEvent(s: State, e: Event, t: nat)
    requires Core(s) && Enabled(s, e, false) && WorkerOf(e) == Some(t)
    requires e.Finished? || e.Announced? || e.MarkedFailed? || e.Loaded? || e.Cleared?
    ensures Core(Apply(s, e))
  {
    hide J.Encode, J.Decode, Classify, Contains, Core, Tidy, OneEach, Waiting, Served;
    var n, j := Apply(s, e), s.workers[t].job;
    CoreGives(s, t);
    WorkerStepKeeps(s, n, t, n.rows[j]);
  }

  lemma CoreGives(s: State, t: nat)
    requires Core(s) && At(s, t)
    ensures WorkerOk(s, t) && JobOk(s, s.workers[t].job)
    ensures s.lost <= s.dropped
    ensures s.workers[t].job in s.lost ==> NonTerminal(s.rows[s.workers[t].job].status)
  {
    assert WorkerOk(s, t) && JobOk(s, s.workers[t].job) && Tidy(s);
  }

  lemma InitiatedWorkers(s: State, ask: Ask, u: nat)
    requires Core(s) && s.scanned && Enabled(s, Initiate(ask), true) && u in Apply(s, Initiate(ask)).workers
    ensures WorkerOk(Apply(s, Initiate(ask)), u)
  {
    hide J.Encode, J.Decode, OneEach, TodoOk, RowOk;
    var n := Apply(s, Initiate(ask));
    Bounds(s);
    assert Tidy(s);
    assert Waiting(n, n.workers[u].job) <==> Waiting(s, n.workers[u].job);
    assert u in s.workers ==> WorkerOk(s, u);
  }

  lemma InitiatedJobs(s: State, ask: Ask, j: nat)
    requires Core(s) && s.scanned && Enabled(s, Initiate(ask), true) && j in Apply(s, Initiate(ask)).rows
    ensures JobOk(Apply(s, Initiate(ask)), j)
  {
    hide J.Encode, J.Decode, PhaseOk, WorkerOk, OneEach, TodoOk;
    var n := Apply(s, Initiate(ask));
    Bounds(s);
    assert Waiting(n, j) <==> Waiting(s, j);
    if j == s.nextJob {
      assert Serves(n, s.nextThread, j);
    } else {
      assert JobOk(s, j);
      ServedAfter(s, n, j);
    }
  }

  lemma InitiateKeeps(s: State, ask: Ask)
    requires Core(s) && s.scanned && Enabled(s, Initiate(ask), true)
    ensures Core(Apply(s, Initiate(ask)))
  {
    hide J.Encode, J.Decode, PhaseOk, JobOk;
    var n := Apply(s, Initiate(ask));
    assert Tidy(s) && OneEach(s);
    Bounds(s);
    forall u | u in n.workers ensures WorkerOk(n, u) {
      InitiatedWorkers(s, ask, u);
    }
    forall u | u in s.workers ensures s.workers[u].job != s.nextJob {
      assert WorkerOk(s, u);
    }
    forall j | j in n.rows ensures JobOk(n, j) {
      InitiatedJobs(s, ask, j);
    }
    forall i | 0 <= i < |n.todo| ensures TodoOk(n, i) {
      assert TodoOk(s, i);
    }
    assert Tidy(n) && OneEach(n);
  }

  /** The next job and the next thread are new. */
  lemma Bounds(s: State)
    requires Core(s)
    ensures s.nextJob !in s.rows && s.nextJob !in s.asked && s.nextThread !in s.workers && !Waiting(s, s.nextJob)
  {
    assert Tidy(s) && forall j :: j in s.rows ==> JobOk(s, j);
    assert forall t :: t in s.workers ==> WorkerOk(s, t);
    assert forall i :: 0 <= i < |s.todo| ==> TodoOk(s, i);
  }

  lemma DeletedJob(s: State, snapshot: nat, j: nat)
    requires Core(s) && Enabled(s, SnapshotDeleted(snapshot), true) && j in s.rows
    ensures JobOk(Apply(s, SnapshotDeleted(snapshot)), j)
  {
    assert JobOk(s, j);
    hide J.Encode, J.Decode, Core;
    var n := Apply(s, SnapshotDeleted(snapshot));
    assert Waiting(n, j) <==> Waiting(s, j);
    ServedAfter(s, n, j);
  }

  /** Nothing the invariant looks at depends on the snapshot link being there. */
  lemma DeleteKeeps(s: State, snapshot: nat)
    requires Core(s) && Enabled(s, SnapshotDeleted(snapshot), true)
    ensures Core(Apply(s, SnapshotDeleted(snapshot)))
  {
    hide J.Encode, J.Decode, Meant, JobOk;
    var n := Apply(s, SnapshotDeleted(snapshot));
    assert Tidy(s) && OneEach(s);
    forall u | u in n.workers ensures WorkerOk(n, u) {
      assert WorkerOk(s, u);
      assert Waiting(n, n.workers[u].job) <==> Waiting(s, n.workers[u].job);
    }
    forall j | j in n.rows ensures JobOk(n, j) {
      DeletedJob(s, snapshot, j);
    }
    forall i | 0 <= i < |n.todo| ensures TodoOk(n, i) {
      assert TodoOk(s, i);
    }
    assert Tidy(n) && OneEach(n);
  }

  lemma CrashKeeps(s: State)
    requires Core(s)
    ensures Core(Apply(s, Crashed))
  {
    var n := Apply(s, Crashed);
    assert Tidy(s);
    forall j | j in n.rows ensures JobOk(n, j) {
      assert JobOk(s, j);
    }
    assert Tidy(n) && OneEach(n);
  }

  lemma NoWorkersYet(s: State)
    requires Core(s) && !s.scanned
    ensures s.workers == map[]
  {
    assert forall t :: t in s.workers ==> WorkerOk(s, t);
  }

  lemma ScanKeeps(s: State, order: seq<nat>)
    requires Core(s) && Enabled(s, Scanned(order), true)
    ensures Core(Apply(s, Scanned(order)))
  {
    var n := Apply(s, Scanned(order));
    NoWorkersYet(s);
    assert Tidy(s);
    forall j | j in n.rows ensures JobOk(n, j) {
      assert JobOk(s, j);
      if NonTerminal(n.rows[j].status) {
        assert j in Interrupted(s.rows);
        var i :| 0 <= i < |order| && order[i] == j;
        assert n.todo[i].job == j;
      }
    }
    forall i | 0 <= i < |n.todo| ensures TodoOk(n, i) {
      assert order[i] in Elements(order);
    }
    assert Tidy(n) && OneEach(n);
  }

  lemma WaitingAfter(s: State, n: State, j: nat)
    requires s.todo != [] && n.todo == s.todo[1..]
    ensures Waiting(n, j) ==> Waiting(s, j)
    ensures Waiting(s, j) && j != s.todo[0].job ==> Waiting(n, j)
  {
    if i :| 0 <= i < |n.todo| && n.todo[i].job == j {
      assert s.todo[i + 1].job == j;
    }
    if i :| 0 <= i < |s.todo| && s.todo[i].job == j {
      if i > 0 { assert n.todo[i - 1].job == j; }
    }
  }

  /** The interrupted job at hand has no worker, and no second entry. */
  lemma HeadIsFree(s: State)
    requires Core(s) && s.todo != []
    ensures TodoOk(s, 0) && s.scanned && JobOk(s, s.todo[0].job)
    ensures forall u :: u in s.workers ==> s.workers[u].job != s.todo[0].job
    ensures !Waiting(Apply(s, Triaged), s.todo[0].job)
  {
    var j, n := s.todo[0].job, Apply(s, Triaged);
    assert TodoOk(s, 0) && Tidy(s) && JobOk(s, j);
    assert Waiting(s, j);
    forall u | u in s.workers ensures s.workers[u].job != j {
      assert WorkerOk(s, u);
    }
    assert n.todo == s.todo[1..];
    assert forall i :: 0 <= i < |n.todo| ==> n.todo[i] == s.todo[i + 1];
  }

  lemma TriagedWorkers(s: State, u: nat)
    requires Core(s) && s.todo != [] && u in Apply(s, Triaged).workers
    ensures WorkerOk(Apply(s, Triaged), u)
  {
    hide J.Encode, J.Decode, OneEach, Tidy;
    var n := Apply(s, Triaged);
    HeadIsFree(s);
    WaitingAfter(s, n, n.workers[u].job);
    assert Tidy(s);
    assert u in s.workers ==> WorkerOk(s, u);
  }

  lemma TriagedJobs(s: State, j: nat)
    requires Core(s) && s.todo != [] && j in Apply(s, Triaged).rows
    ensures JobOk(Apply(s, Triaged), j)
  {
    hide J.Encode, J.Decode, OneEach, Tidy;
    var n := Apply(s, Triaged);
    HeadIsFree(s);
    Bounds(s);
    assert JobOk(s, j);
    WaitingAfter(s, n, j);
    if j == s.todo[0].job {
      assert s.todo[0].batch.Some? ==> Serves(n, s.nextThread, j);
    } else {
      ServedAfter(s, n, j);
    }
  }

  lemma TriageKeeps(s: State)
    requires Core(s) && s.todo != []
    ensures Core(Apply(s, Triaged))
  {
    hide J.Encode, J.Decode, WorkerOk, JobOk;
    var n := Apply(s, Triaged);
    HeadIsFree(s);
    Bounds(s);
    assert Tidy(s) && OneEach(s);
    forall u | u in n.workers ensures WorkerOk(n, u) {
      TriagedWorkers(s, u);
    }
    forall j | j in n.rows ensures JobOk(n, j) {
      TriagedJobs(s, j);
    }
    assert n.todo == s.todo[1..];
    forall i | 0 <= i < |n.todo| ensures TodoOk(n, i) {
      assert TodoOk(s, i + 1);
    }
    assert Tidy(n) && OneEach(n);
  }

  lemma WithoutBarrier(s: State, e: Event)
    ensures Enabled(s, e, true) ==> Enabled(s, e, false)
  {
  }

  lemma StepKeeps(s: State, e: Event)
    requires Core(s) && Enabled(s, e, true)
    ensures Core(Apply(s, e))
  {
    hide Core, Apply;
    match e
    case Initiate(ask) => InitiateKeeps(s, ask);
    case SnapshotDeleted(snapshot) => DeleteKeeps(s, snapshot);
    case Crashed => CrashKeeps(s);
    case Scanned(order) => ScanKeeps(s, order);
    case Triaged => TriageKeeps(s);
    case _ =>
      var t := WorkerOf(e).value;
      if e.Line? {
        HookEvent(s, e, t);
      } else if e.Claimed? || e.Sent? {
        ClaimEvent(s, e, t);
      } else if e.Finished? || e.Announced? || e.MarkedFailed? || e.Loaded? || e.Cleared? {
        EndEvent(s, e, t);
      } else {
        RunEvent(s, e, t);
      }
  }

  // ---- What no step undoes -----------------------------------------------------------------

  /** The columns of the row other than the snapshot link. */
  predicate SameButLink(a: Row, b: Row) {
    a.(snapshot := None) == b.(snapshot := None)
  }

  ghost predicate Lasts(s: State, n: State) {
    && (forall j :: j in s.rows ==> j in n.rows)
    && (forall j :: j in s.rows && s.rows[j].notified ==> n.rows[j].notified)
    && (forall j :: j in s.rows && !NonTerminal(s.rows[j].status) ==> SameButLink(s.rows[j], n.rows[j]))
    && s.dropped <= n.dropped
  }

  lemma StepLasts(s: State, e: Event)
    requires Core(s) && Enabled(s, e, true)
    ensures Lasts(s, Apply(s, e))
  {
    hide J.Encode, J.Decode, Classify, Contains, JobOk, Tidy, OneEach, PhaseOk;
    if WorkerOf(e).Some? {
      hide TodoOk;
      WorkerLasts(s, e, WorkerOf(e).value);
    } else if e.Triaged? {
      assert TodoOk(s, 0);
    } else if e.Initiate? {
      Bounds(s);
    }
  }

  lemma WorkerLasts(s: State, e: Event, t: nat)
    requires Core(s) && Enabled(s, e, true) && WorkerOf(e) == Some(t)
    ensures Lasts(s, Apply(s, e))
  {
    hide Core, Apply, Enabled;
    WithoutBarrier(s, e);
    WorkerRow(s, e, t);
    WorkerRowLasts(s, e, t);
  }

  /** What no step of its worker undoes in a row. */
  lemma WorkerRowLasts(s: State, e: Event, t: nat)
    requires Core(s) && Enabled(s, e, true) && WorkerOf(e) == Some(t)
    ensures var n, j := Apply(s, e), s.workers[t].job;
      && j in n.rows && s.dropped <= n.dropped && (s.rows[j].notified ==> n.rows[j].notified)
      && (!NonTerminal(s.rows[j].status) ==> n.rows[j] == s.rows[j])
  {
    assert WorkerOk(s, t);
    hide Core, J.Encode, J.Decode, Classify, Contains, Recall, JobOk, Tidy, OneEach, PhaseOk, TodoOk;
  }

  /** At most one warm-up notification per job, and only once claimed. */
  ghost predicate WarmOk(s: State) {
    var w := s.warmNotices;
    && (forall a, b :: 0 <= a < b < |w| ==> w[a].0 != w[b].0)
    && (forall a :: 0 <= a < |w| ==> w[a].0 in s.rows && s.rows[w[a].0].notified)
    && (forall t, a :: t in s.workers && s.workers[t].phase.Send? && 0 <= a < |w| ==> w[a].0 != s.workers[t].job)
  }

  /** A worker's event touches no other worker. */
  lemma MovesOne(s: State, e: Event, t: nat)
    requires Enabled(s, e, true) && WorkerOf(e) == Some(t)
    ensures var n := Apply(s, e);
      && t in s.workers
      && (forall u :: u != t ==> (u in n.workers <==> u in s.workers))
      && (forall u :: u != t && u in n.workers ==> n.workers[u] == s.workers[u])
      && (t in n.workers ==> n.workers[t].job == s.workers[t].job && !e.Announced?)
  {
    hide J.Encode, J.Decode, Classify, Contains, WithStatus, WithBatch, Recall;
  }

  /** Other than by spawning, workers only move or end. */
  lemma OldWorker(s: State, e: Event, t: nat)
    requires Enabled(s, e, true) && !e.Initiate? && !e.Triaged? && t in Apply(s, e).workers
    ensures t in s.workers && Apply(s, e).workers[t].job == s.workers[t].job && e != Announced(t)
    ensures WorkerOf(e) != Some(t) ==> Apply(s, e).workers[t] == s.workers[t]
  {
    if WorkerOf(e).Some? {
      WithoutBarrier(s, e);
      MovesOne(s, e, WorkerOf(e).value);
      hide Apply, Enabled;
    } else {
      hide Unlink, Elements, Interrupted, Distinct;
    }
  }

  lemma SpawnedWorker(s: State, e: Event, t: nat)
    requires Core(s) && Enabled(s, e, true) && (e.Initiate? || e.Triaged?)
    requires t in Apply(s, e).workers && t !in s.workers
    ensures var w := Apply(s, e).workers[t];
      (w.phase.Prepare? || w.phase.Load?) && (w.job !in s.rows || NonTerminal(s.rows[w.job].status))
  {
    hide J.Encode, JobOk, OneEach, PhaseOk, WorkerOk;
    if e.Triaged? {
      assert TodoOk(s, 0);
    } else {
      Bounds(s);
    }
  }

  /** Only a claim makes a sender, and only if nobody claimed before. */
  lemma SendersAfter(s: State, e: Event, t: nat)
    requires Core(s) && Enabled(s, e, true)
    requires var n := Apply(s, e); t in n.workers && n.workers[t].phase.Send?
    ensures t in s.workers && Apply(s, e).workers[t].job == s.workers[t].job
    ensures s.workers[t].phase.Send? || (e == Claimed(t) && At(s, t) && !s.rows[s.workers[t].job].notified)
    ensures e != Sent(t)
  {
    hide Core, J.Encode, J.Decode, Classify, Contains, WithStatus, WithBatch, Recall;
    if e.Initiate? || e.Triaged? {
      if t !in s.workers { SpawnedWorker(s, e, t); }
    } else {
      OldWorker(s, e, t);
      if WorkerOf(e) != Some(t) {
        hide Apply, Enabled;
      }
    }
  }

  lemma StepWarm(s: State, e: Event)
    requires Core(s) && WarmOk(s) && Enabled(s, e, true)
    ensures WarmOk(Apply(s, e))
  {
    hide J.Encode, J.Decode, Classify, Contains, JobOk, Tidy, PhaseOk, TodoOk, Enabled;
    WithoutBarrier(s, e);
    StepLasts(s, e);
    assert OneEach(s);
    var n := Apply(s, e);
    forall t, a | t in n.workers && n.workers[t].phase.Send? && 0 <= a < |n.warmNotices|
      ensures n.warmNotices[a].0 != n.workers[t].job
    {
      SendersAfter(s, e, t);
      NewNotice(s, e);
    }
    NewNotice(s, e);
  }

  lemma NewNotice(s: State, e: Event)
    requires Core(s) && Enabled(s, e, true)
    ensures e.Sent? ==> At(s, e.t) && s.workers[e.t].phase.Send? && s.rows[s.workers[e.t].job].notified
    ensures Apply(s, e).warmNotices ==
      if e.Sent? then s.warmNotices + [(s.workers[e.t].job, s.workers[e.t].phase.id)] else s.warmNotices
  {
    hide J.Encode, J.Decode, Classify, Contains, JobOk, Tidy, OneEach, TodoOk;
    if e.Sent? { assert WorkerOk(s, e.t); }
  }

  /** Completion notices, except for jobs whose last status was lost, are for
      completed jobs that no worker serves any more, one for each. */
  ghost predicate DoneOk(s: State) {
    var d := s.doneNotices;
    && (forall a, b :: 0 <= a < b < |d| && d[a] !in s.dropped ==> d[a] != d[b])
    && (forall a :: 0 <= a < |d| && d[a] !in s.dropped ==> d[a] in s.rows && s.rows[d[a]].status == Completed)
    && (forall t, a :: t in s.workers && 0 <= a < |d| && d[a] !in s.dropped ==> d[a] != s.workers[t].job)
  }

  lemma NewDone(s: State, e: Event)
    requires Core(s) && Enabled(s, e, true)
    ensures e.Announced? ==> At(s, e.t)
    ensures e.Announced? ==> s.workers[e.t].job in s.dropped || s.rows[s.workers[e.t].job].status == Completed
    ensures Apply(s, e).doneNotices == if e.Announced? then s.doneNotices + [s.workers[e.t].job] else s.doneNotices
  {
    hide J.Encode, J.Decode, Classify, Contains, JobOk, OneEach, TodoOk, PhaseOk;
    if e.Announced? { assert WorkerOk(s, e.t) && Tidy(s); }
  }

  /** A job with a finished row gets no new worker. */
  lemma ServersAfter(s: State, e: Event, t: nat)
    requires Core(s) && Enabled(s, e, true) && t in Apply(s, e).workers
    ensures var job := Apply(s, e).workers[t].job;
      || (t in s.workers && s.workers[t].job == job && e != Announced(t))
      || job !in s.rows || NonTerminal(s.rows[job].status)
  {
    hide Core, J.Encode;
    if e.Initiate? || e.Triaged? {
      Bounds(s);
      if t !in s.workers { SpawnedWorker(s, e, t); }
    } else {
      hide Apply;
      OldWorker(s, e, t);
    }
  }

  lemma StepDone(s: State, e: Event)
    requires Core(s) && DoneOk(s) && Enabled(s, e, true)
    ensures DoneOk(Apply(s, e))
  {
    hide Apply, Enabled, JobOk, PhaseOk, TodoOk, Tidy;
    WithoutBarrier(s, e);
    StepLasts(s, e);
    NewDone(s, e);
    assert OneEach(s);
    var n := Apply(s, e);
    forall t, a | t in n.workers && 0 <= a < |n.doneNotices| && n.doneNotices[a] !in n.dropped
      ensures n.doneNotices[a] != n.workers[t].job
    {
      ServersAfter(s, e, t);
    }
  }

  /** Every run of rustic does what the job was asked to, up to what the stored
      paths read back as. */
  ghost predicate RunsOk(s: State) {
    forall a :: 0 <= a < |s.runs| ==> s.runs[a].0 in s.asked && Meant(s.asked[s.runs[a].0], s.runs[a].1)
  }

  /** Only a new job and a run of the tool touch what was asked and what ran. */
  lemma SameRuns(s: State, e: Event)
    requires Enabled(s, e, true) && !e.Initiate? && !e.Requested?
    ensures Enabled(s, e, false) && Apply(s, e).runs == s.runs && Apply(s, e).asked == s.asked
  {
    hide J.Encode, J.Decode, Classify, Contains, WithStatus, WithBatch, Recall, Unlink, Elements, Interrupted, Distinct;
  }

  lemma StepRuns(s: State, e: Event)
    requires Core(s) && RunsOk(s) && Enabled(s, e, true)
    ensures RunsOk(Apply(s, e))
  {
    hide J.Encode, J.Decode, Classify, Contains, Tidy, OneEach, Meant;
    if e.Initiate? {
      Bounds(s);
    } else if e.Requested? {
      assert WorkerOk(s, e.t);
    } else {
      hide Core, Apply, Enabled;
      SameRuns(s, e);
    }
  }

  function Linked(snapshot: nat, snapshots: set<nat>): Option<nat> {
    if snapshot in snapshots then Some(snapshot) else None
  }

  /** A row links to its snapshot exactly as long as that is there. */
  ghost predicate LinksOk(s: State) {
    forall j :: j in s.rows ==>
      j in s.asked && s.rows[j].snapshot == Linked(s.asked[j].snapshot, s.snapshots)
  }

  lemma OthersLink(s: State, e: Event, j: nat)
    requires Core(s) && Enabled(s, e, true) && WorkerOf(e).None? && j in Apply(s, e).rows
    ensures var n := Apply(s, e);
      if j in s.rows then
        && (j in s.asked ==> j in n.asked && n.asked[j] == s.asked[j])
        && if e.SnapshotDeleted?
           then n.rows[j] == Unlink(s.rows[j], e.snapshot) && n.snapshots == s.snapshots - {e.snapshot}
           else n.rows[j].snapshot == s.rows[j].snapshot && n.snapshots == s.snapshots
      else
        j in n.asked && n.rows[j].snapshot == Some(n.asked[j].snapshot) && n.asked[j].snapshot in n.snapshots
  {
    Bounds(s);
    hide Core, J.Encode, J.Decode, Elements, Interrupted, Distinct, WithStatus, Unlink;
  }

  lemma StepLinks(s: State, e: Event)
    requires Core(s) && LinksOk(s) && Enabled(s, e, true)
    ensures LinksOk(Apply(s, e))
  {
    WithoutBarrier(s, e);
    assert WorkerOf(e).Some? ==> At(s, WorkerOf(e).value);
    hide Core, Apply, Enabled;
    if WorkerOf(e).Some? {
      var t := WorkerOf(e).value;
      WorkerRow(s, e, t);
      WorkerBatch(s, e, t);
      WorkerSame(s, e);
    } else {
      var n := Apply(s, e);
      forall j | j in n.rows ensures j in n.asked && n.rows[j].snapshot == Linked(n.asked[j].snapshot, n.snapshots) {
        OthersLink(s, e, j);
      }
    }
  }

  // ---- Whole runs ----------------------------------------------------------------------------

  ghost predicate Good(s: State) {
    Core(s) && WarmOk(s) && DoneOk(s) && RunsOk(s) && LinksOk(s)
  }

  lemma StepGood(s: State, e: Event)
    requires Good(s) && Enabled(s, e, true)
    ensures Good(Apply(s, e)) && Lasts(s, Apply(s, e))
  {
    hide Core, WarmOk, DoneOk, RunsOk, LinksOk, Apply, Enabled;
    WithoutBarrier(s, e);
    StepLinks(s, e);
    StepKeeps(s, e);
    StepWarm(s, e);
    StepDone(s, e);
    StepRuns(s, e);
    StepLasts(s, e);
  }

  lemma {:induction false} RunGood(s: State, es: seq<Event>)
    requires Good(s) && Run(s, es, true)
    ensures Good(Final(s, es, true)) && Lasts(s, Final(s, es, true))
    decreases |es|
  {
    hide Good, Apply, Enabled;
    if es != [] {
      WithoutBarrier(s, es[0]);
      StepGood(s, es[0]);
      RunGood(Apply(s, es[0]), es[1..]);
    }
  }

  ghost predicate Reaches(s: State, n: State) {
    exists es :: Run(s, es, true) && Final(s, es, true) == n
  }

  lemma ReachesSelf(s: State)
    ensures Reaches(s, s)
  {
    assert Run(s, [], true) && Final(s, [], true) == s;
  }

  lemma {:induction false} RunSnoc(s: State, es: seq<Event>, e: Event)
    requires Run(s, es, true) && Enabled(Final(s, es, true), e, true)
    ensures Run(s, es + [e], true) && Enabled(Final(s, es, true), e, false)
    ensures Final(s, es + [e], true) == Apply(Final(s, es, true), e)
    decreases |es|
  {
    hide Apply, Enabled;
    WithoutBarrier(Final(s, es, true), e);
    if es == [] {
      var n := Apply(s, e);
      assert Run(n, [], true) && Final(n, [], true) == n;
      assert ([] + [e])[0] == e && ([] + [e])[1..] == [];
    } else {
      assert (es + [e])[1..] == es[1..] + [e] && (es + [e])[0] == es[0];
      WithoutBarrier(s, es[0]);
      RunSnoc(Apply(s, es[0]), es[1..], e);
    }
  }

  lemma ReachesStep(s: State, n: State, e: Event)
    requires Reaches(s, n) && Enabled(n, e, true)
    ensures Enabled(n, e, false) && Reaches(s, Apply(n, e))
  {
    hide Apply, Enabled;
    WithoutBarrier(n, e);
    var es :| Run(s, es, true) && Final(s, es, true) == n;
    RunSnoc(s, es, e);
  }

  lemma ReachesThrough(a: State, b: State, c: State)
    requires Reaches(a, b) && Reaches(b, c)
    ensures Reaches(a, c)
  {
    hide Apply, Enabled;
    var es :| Run(b, es, true) && Final(b, es, true) == c;
    RunThrough(a, b, es);
  }

  lemma {:induction false} RunThrough(a: State, b: State, es: seq<Event>)
    requires Reaches(a, b) && Run(b, es, true)
    ensures Reaches(a, Final(b, es, true))
    decreases |es|
  {
    hide Apply, Enabled;
    if es != [] {
      ReachesStep(a, b, es[0]);
      RunThrough(a, Apply(b, es[0]), es[1..]);
    }
  }

  lemma StartGood(snapshots: set<nat>)
    ensures Good(Start(snapshots))
  {
    assert Tidy(Start(snapshots)) && OneEach(Start(snapshots));
  }

  lemma ReachableGood(snapshots: set<nat>, s: State)
    requires Reaches(Start(snapshots), s)
    ensures Good(s)
  {
    hide Apply, Enabled;
    var es :| Run(Start(snapshots), es, true) && Final(Start(snapshots), es, true) == s;
    StartGood(snapshots);
    RunGood(Start(snapshots), es);
  }

  /** Completed and failed are never left, and nothing but the snapshot link of
      such a row ever changes: over every run, with crashes at any step. */
  lemma TerminalForever(snapshots: set<nat>, s: State, n: State, j: nat)
    requires Reaches(Start(snapshots), s) && Reaches(s, n)
    requires j in s.rows && !NonTerminal(s.rows[j].status)
    ensures j in n.rows && SameButLink(s.rows[j], n.rows[j])
  {
    hide Apply, Enabled, Good;
    ReachableGood(snapshots, s);
    var es :| Run(s, es, true) && Final(s, es, true) == n;
    RunGood(s, es);
  }

  /** Once reconciliation is through, a row is open exactly if a worker is on
      it or its last status was lost, never both; and no row has two workers. */
  lemma OneWorkerEach(snapshots: set<nat>, s: State, j: nat)
    requires Reaches(Start(snapshots), s) && s.scanned && s.todo == [] && j in s.rows
    ensures NonTerminal(s.rows[j].status) <==> Served(s, j) || j in s.lost
    ensures !(Served(s, j) && j in s.lost)
    ensures forall t, u :: Serves(s, t, j) && Serves(s, u, j) ==> t == u
  {
    ReachableGood(snapshots, s);
    assert JobOk(s, j) && OneEach(s) && Tidy(s) && !Waiting(s, j);
    if t :| Serves(s, t, j) && Live(s.workers[t]) {
      assert WorkerOk(s, t);
    }
  }

  /** A warm-up notification is sent at most once per job, whatever crashes,
      resumes and repeated sentinels the run has. */
  lemma OneWarmNotice(snapshots: set<nat>, s: State)
    requires Reaches(Start(snapshots), s)
    ensures forall a, b :: 0 <= a < b < |s.warmNotices| ==> s.warmNotices[a].0 != s.warmNotices[b].0
  {
    ReachableGood(snapshots, s);
  }

  /** Unless the deadline swallowed its last status, a job with a completion
      notice is completed, and has one notice. */
  lemma DoneNotices(snapshots: set<nat>, s: State, a: nat)
    requires Reaches(Start(snapshots), s) && a < |s.doneNotices| && s.doneNotices[a] !in s.dropped
    ensures s.doneNotices[a] in s.rows && s.rows[s.doneNotices[a]].status == Completed
    ensures forall b :: 0 <= b < |s.doneNotices| && b != a ==> s.doneNotices[b] != s.doneNotices[a]
  {
    ReachableGood(snapshots, s);
  }

  ghost predicate WarmTold(s: State, j: nat) {
    (exists a :: 0 <= a < |s.warmNotices| && s.warmNotices[a].0 == j)
    || (exists t :: Serves(s, t, j) && s.workers[t].phase.Send?)
  }

  ghost predicate DoneTold(s: State, j: nat) {
    j in s.doneNotices || (exists t :: Serves(s, t, j) && s.workers[t].phase.Announce?)
  }

  /** A claimed warm-up notification has gone out or a worker is about to send it;
      the same for a completed job. */
  ghost predicate Told(s: State, j: nat) {
    j in s.rows ==> (s.rows[j].notified ==> WarmTold(s, j)) && (s.rows[j].status == Completed ==> DoneTold(s, j))
  }

  /** What a worker's step does to the notices of its job. */
  lemma WorkerTells(s: State, e: Event, t: nat)
    requires Enabled(s, e, true) && WorkerOf(e) == Some(t)
    ensures var n, j := Apply(s, e), s.workers[t].job;
      && j in n.rows && s.warmNotices <= n.warmNotices && s.doneNotices <= n.doneNotices
      && (n.rows[j].notified && !s.rows[j].notified ==> t in n.workers && n.workers[t].phase.Send?)
      && (n.rows[j].status == Completed && s.rows[j].status != Completed ==>
            t in n.workers && n.workers[t].phase.Announce?)
      && (s.workers[t].phase.Send? ==>
            || (t in n.workers && n.workers[t].phase.Send?)
            || (|n.warmNotices| == |s.warmNotices| + 1 && n.warmNotices[|s.warmNotices|].0 == j))
      && (s.workers[t].phase.Announce? ==> (t in n.workers && n.workers[t].phase.Announce?) || j in n.doneNotices)
  {
    hide J.Encode, J.Decode, Recall, OnHookLine;
    if e.Line? {
      LineTells(s, t, e.line);
      hide Apply;
    }
  }

  lemma LineTells(s: State, t: nat, line: string)
    requires Enabled(s, Line(t, line), true)
    ensures var n, j := Apply(s, Line(t, line)), s.workers[t].job;
      && j in n.rows && n.rows[j].notified == s.rows[j].notified
      && (n.rows[j].status == Completed ==> s.rows[j].status == Completed)
      && n.warmNotices == s.warmNotices && n.doneNotices == s.doneNotices
  {
    hide Classify, Contains;
  }

  lemma OthersTell(s: State, e: Event, j: nat)
    requires Core(s) && Enabled(s, e, true) && WorkerOf(e).None? && e != Crashed
    ensures var n := Apply(s, e);
      && n.warmNotices == s.warmNotices && n.doneNotices == s.doneNotices
      && (forall t :: t in s.workers ==> t in n.workers && n.workers[t] == s.workers[t])
      && (j in n.rows && n.rows[j].notified ==> j in s.rows && s.rows[j].notified)
      && (j in n.rows && n.rows[j].status == Completed ==> j in s.rows && s.rows[j].status == Completed)
  {
    Bounds(s);
    hide Core, J.Encode, J.Decode, Recall, Elements, Interrupted, Distinct;
  }

  lemma StepTold(s: State, e: Event, j: nat)
    requires Core(s) && Told(s, j) && Enabled(s, e, true) && e != Crashed
    ensures Told(Apply(s, e), j)
  {
    WithoutBarrier(s, e);
    if WorkerOf(e).Some? {
      var t := WorkerOf(e).value;
      WorkerRow(s, e, t);
      WorkerTells(s, e, t);
      MovesOne(s, e, t);
      hide Core, Apply, Enabled;
      StillTold(s, Apply(s, e), t, j);
    } else {
      OthersTell(s, e, j);
      hide Core, Apply, Enabled;
      var n := Apply(s, e);
      assert forall t :: Serves(s, t, j) ==> Serves(n, t, j) && n.workers[t] == s.workers[t];
    }
  }

  /** Of the workers only t has moved. */
  lemma StillTold(s: State, n: State, t: nat, j: nat)
    requires s.warmNotices <= n.warmNotices && s.doneNotices <= n.doneNotices && t in s.workers
    requires s.workers[t].job in s.rows && s.workers[t].job in n.rows
    requires n.rows == s.rows[s.workers[t].job := n.rows[s.workers[t].job]]
    requires forall u :: u != t && u in s.workers ==> u in n.workers && n.workers[u] == s.workers[u]
    requires t in n.workers ==> n.workers[t].job == s.workers[t].job
    requires var i := s.workers[t].job;
      && (n.rows[i].notified && !s.rows[i].notified ==> t in n.workers && n.workers[t].phase.Send?)
      && (n.rows[i].status == Completed && s.rows[i].status != Completed ==>
            t in n.workers && n.workers[t].phase.Announce?)
      && (s.workers[t].phase.Send? ==>
            || (t in n.workers && n.workers[t].phase.Send?)
            || (|n.warmNotices| == |s.warmNotices| + 1 && n.warmNotices[|s.warmNotices|].0 == i))
      && (s.workers[t].phase.Announce? ==> (t in n.workers && n.workers[t].phase.Announce?) || i in n.doneNotices)
    ensures Told(s, j) ==> Told(n, j)
  {
    assert forall u :: u != t && Serves(s, u, j) ==> Serves(n, u, j);
    assert t in n.workers ==> Serves(n, t, s.workers[t].job);
    assert forall a :: 0 <= a < |s.warmNotices| ==> n.warmNotices[a] == s.warmNotices[a];
  }

  lemma {:induction false} RunTold(s: State, es: seq<Event>, j: nat)
    requires Good(s) && Told(s, j) && Run(s, es, true) && NoCrash(es)
    ensures Told(Final(s, es, true), j)
    decreases |es|
  {
    hide Core, Apply, Enabled, Told;
    if es != [] {
      WithoutBarrier(s, es[0]);
      assert es[0] in es && forall e :: e in es[1..] ==> e in es;
      StepGood(s, es[0]);
      StepTold(s, es[0], j);
      RunTold(Apply(s, es[0]), es[1..], j);
    }
  }

  /** Without a crash nothing that is due is left out: once no worker is on a job
      its warm-up notification has gone out exactly if it was claimed, and a
      completed job has its completion notice. */
  lemma NoticesSent(snapshots: set<nat>, es: seq<Event>, j: nat)
    requires Run(Start(snapshots), es, true) && NoCrash(es) && j in Final(Start(snapshots), es, true).rows
    requires forall t :: !Serves(Final(Start(snapshots), es, true), t, j)
    ensures var s := Final(Start(snapshots), es, true);
      && (s.rows[j].notified <==> exists a :: 0 <= a < |s.warmNotices| && s.warmNotices[a].0 == j)
      && (s.rows[j].status == Completed ==> j in s.doneNotices)
  {
    hide Core, Apply, Enabled;
    StartGood(snapshots);
    RunGood(Start(snapshots), es);
    RunTold(Start(snapshots), es, j);
  }

  /** Every run of rustic, first or resumed, does exactly what was asked if the
      requested paths have no backslash or control character. */
  lemma RunsAsAsked(snapshots: set<nat>, s: State, a: nat)
    requires Reaches(Start(snapshots), s) && a < |s.runs|
    ensures s.runs[a].0 in s.asked
    ensures J.AllClean(s.asked[s.runs[a].0].paths) ==> s.runs[a].1 == s.asked[s.runs[a].0]
  {
    ReachableGood(snapshots, s);
    J.RoundTripExact(s.asked[s.runs[a].0].paths);
  }

  /** What a resumed job recalls is what was asked exactly if the snapshot has
      not been deleted and the paths are clean, and nothing without the snapshot. */
  lemma RecallExact(snapshots: set<nat>, s: State, j: nat)
    requires Reaches(Start(snapshots), s) && j in s.rows
    ensures j in s.asked
    ensures Recall(s.rows[j]) == Some(s.asked[j]) <==>
      s.asked[j].snapshot in s.snapshots && J.AllClean(s.asked[j].paths)
    ensures s.asked[j].snapshot !in s.snapshots ==> Recall(s.rows[j]) == None
  {
    hide J.Decode, J.Encode, J.AllClean;
    ReachableGood(snapshots, s);
    assert JobOk(s, j);
    J.RoundTripExact(s.asked[j].paths);
  }

  // ---- Triage ----------------------------------------------------------------------------------

  ghost predicate NoCrash(es: seq<Event>) {
    Crashed !in es
  }

  /** The reconciliation at hand is still to resume the job. */
  ghost predicate Due(s: State, j: nat) {
    exists i :: 0 <= i < |s.todo| && s.todo[i].job == j && s.todo[i].batch.Some?
  }

  /** How often the job has been resumed, counting the time it is due. */
  ghost function Resumes(s: State, j: nat): nat {
    s.resumes[j] + if Due(s, j) then 1 else 0
  }

  /** The reconciliation at hand is still to fail the job, or it is failed. */
  ghost predicate Failing(s: State, j: nat) {
    (exists i :: 0 <= i < |s.todo| && s.todo[i] == Todo(j, None)) || (j in s.rows && s.rows[j].status == Failed)
  }

  lemma TriageSettles(s: State, j: nat)
    requires Core(s) && s.todo != []
    ensures Resumes(Apply(s, Triaged), j) == Resumes(s, j)
    ensures Failing(s, j) ==> Failing(Apply(s, Triaged), j)
  {
    hide J.Encode, J.Decode, JobOk, OneEach, WorkerOk, Tidy;
    var n := Apply(s, Triaged);
    assert TodoOk(s, 0) && n.todo == s.todo[1..];
    assert forall i :: 0 <= i < |n.todo| ==> n.todo[i] == s.todo[i + 1];
    assert forall i :: 0 < i < |s.todo| ==> s.todo[i] == n.todo[i - 1];
  }

  lemma StepSettles(s: State, e: Event, j: nat)
    requires Core(s) && Enabled(s, e, true) && e != Crashed && s.scanned
    ensures Apply(s, e).scanned && Resumes(Apply(s, e), j) == Resumes(s, j)
    ensures Failing(s, j) ==> Failing(Apply(s, e), j)
  {
    hide Core, J.Encode, J.Decode, Classify, Contains, WithStatus, WithBatch, Recall, Unlink, Elements, Interrupted,
      Distinct;
    StepLasts(s, e);
    if e.Triaged? {
      TriageSettles(s, j);
    }
  }

  lemma {:induction false} RunSettles(s: State, es: seq<Event>, j: nat)
    requires Good(s) && s.scanned && Run(s, es, true) && NoCrash(es)
    ensures Good(Final(s, es, true)) && Final(s, es, true).scanned
    ensures Resumes(Final(s, es, true), j) == Resumes(s, j)
    ensures Failing(s, j) ==> Failing(Final(s, es, true), j)
    decreases |es|
  {
    hide Apply, Enabled, Resumes, Failing, Core;
    if es != [] {
      WithoutBarrier(s, es[0]);
      assert es[0] in es;
      StepGood(s, es[0]);
      StepSettles(s, es[0], j);
      assert forall e :: e in es[1..] ==> e in es;
      RunSettles(Apply(s, es[0]), es[1..], j);
    }
  }

  lemma ScanSettles(s: State, order: seq<nat>, j: nat)
    requires Core(s) && Enabled(s, Scanned(order), true)
    ensures var n, open := Apply(s, Scanned(order)), j in s.rows && NonTerminal(s.rows[j].status);
      && Resumes(n, j) == s.resumes[j] + (if open && s.rows[j].batch.Some? then 1 else 0)
      && (open && s.rows[j].batch.None? ==> Failing(n, j))
  {
    hide J.Encode, J.Decode;
    var n := Apply(s, Scanned(order));
    assert j in order <==> j in Elements(order);
    assert forall i :: 0 <= i < |order| ==> order[i] in Elements(order);
    assert forall i :: 0 <= i < |order| ==> n.todo[i] == Todo(order[i], s.rows[order[i]].batch);
    if j in order {
      var i :| 0 <= i < |order| && order[i] == j;
      assert n.todo[i] == Todo(j, s.rows[j].batch);
    }
  }

  /** Between a restart and the end of its reconciliation, whatever else runs in
      between and however often the job was resumed before: each row that was
      open without a batch job ends up failed, for each that was open with one
      exactly one more worker is started, and for no other row. A row that is
      still open then has a live worker, or lost its last status since. */
  lemma ReconcileOutcome(snapshots: set<nat>, s: State, order: seq<nat>, es: seq<Event>, j: nat)
    requires Reaches(Start(snapshots), s) && Enabled(s, Scanned(order), true)
    requires Run(Apply(s, Scanned(order)), es, true) && NoCrash(es)
    requires Final(Apply(s, Scanned(order)), es, true).todo == []
    ensures var n, open := Final(Apply(s, Scanned(order)), es, true), j in s.rows && NonTerminal(s.rows[j].status);
      && n.resumes[j] == s.resumes[j] + (if open && s.rows[j].batch.Some? then 1 else 0)
      && (open && s.rows[j].batch.None? ==> j in n.rows && n.rows[j].status == Failed)
      && (j in n.rows && NonTerminal(n.rows[j].status) ==> Served(n, j) || j in n.lost)
  {
    ReachableGood(snapshots, s);
    WithoutBarrier(s, Scanned(order));
    StepGood(s, Scanned(order));
    ScanSettles(s, order, j);
    var m := Apply(s, Scanned(order));
    assert m.scanned;
    hide Core, Apply, Enabled;
    RunSettles(m, es, j);
    OpenIsServed(Final(m, es, true), j);
  }

  lemma OpenIsServed(s: State, j: nat)
    requires Core(s) && s.scanned && s.todo == []
    ensures j in s.rows && NonTerminal(s.rows[j].status) ==> Served(s, j) || j in s.lost
  {
    assert j in s.rows ==> JobOk(s, j) && !Waiting(s, j);
  }

  // ---- Batch jobs and restarts ---------------------------------------------------------------------

  /** A resumed worker of the job is about to forget its batch job. */
  ghost predicate Forgetting(s: State, j: nat) {
    exists t :: Serves(s, t, j) && Forgets(s.workers[t], s.rows, j)
  }

  predicate Forgets(w: Worker, rows: map<nat, Row>, j: nat) {
    w.phase.Clear? || (w.phase.Load? && j in rows && Recall(rows[j]).Some?)
  }

  /** The job's row has kept its batch, and nobody is about to forget it, unless
      it was resumed in between. */
  ghost predicate BatchKept(s: State, n: State, j: nat) {
    && s.resumes[j] <= n.resumes[j]
    && (n.resumes[j] == s.resumes[j] && j in s.rows && s.rows[j].batch.Some? && !Forgetting(s, j) ==>
          j in n.rows && n.rows[j].batch == s.rows[j].batch && !Forgetting(n, j))
  }

  lemma WorkerRow(s: State, e: Event, t: nat)
    requires Enabled(s, e, true) && WorkerOf(e) == Some(t)
    ensures var n, j := Apply(s, e), s.workers[t].job;
      j in n.rows && n.rows == s.rows[j := n.rows[j]] && n.resumes == s.resumes
  {
    hide J.Encode, J.Decode, Classify, Contains, Recall, WithStatus, WithBatch;
  }

  lemma LineBatch(s: State, t: nat, line: string)
    requires Enabled(s, Line(t, line), true)
    ensures var n, j := Apply(s, Line(t, line)), s.workers[t].job;
      && j in n.rows && n.rows[j].(status := s.rows[j].status, batch := s.rows[j].batch) == s.rows[j]
      && (s.rows[j].batch.Some? ==> n.rows[j].batch == s.rows[j].batch)
  {
    hide Classify, Contains, WithStatus, WithBatch;
  }

  /** What a worker's step does to its row: the batch is forgotten only where the
      worker was about to. */
  lemma WorkerBatch(s: State, e: Event, t: nat)
    requires Enabled(s, e, true) && WorkerOf(e) == Some(t)
    ensures var n, j := Apply(s, e), s.workers[t].job;
      && j in n.rows && n.rows[j].snapshot == s.rows[j].snapshot && n.rows[j].pathsText == s.rows[j].pathsText
      && n.rows[j].destination == s.rows[j].destination
      && (!s.workers[t].phase.Clear? && s.rows[j].batch.Some? ==> n.rows[j].batch == s.rows[j].batch)
  {
    hide J.Encode, J.Decode, Recall, WithStatus, OnHookLine;
    if e.Line? {
      LineBatch(s, t, e.line);
      hide Apply;
    }
  }

  lemma WorkerForgets(s: State, e: Event, t: nat)
    requires Enabled(s, e, true) && WorkerOf(e) == Some(t)
    ensures var n := Apply(s, e);
      && (forall u :: u != t ==> (u in n.workers <==> u in s.workers))
      && (forall u :: u != t && u in n.workers ==> n.workers[u] == s.workers[u])
      && (t in n.workers ==> n.workers[t].job == s.workers[t].job)
      && (t in n.workers && Forgets(n.workers[t], n.rows, s.workers[t].job)
          ==> Forgets(s.workers[t], s.rows, s.workers[t].job))
  {
    WithoutBarrier(s, e);
    MovesOne(s, e, t);
    if t in Apply(s, e).workers {
      LeadsToForgetting(s, e, t);
    }
    hide Apply, Enabled, Recall;
  }

  lemma LeadsToForgetting(s: State, e: Event, t: nat)
    requires Enabled(s, e, true) && WorkerOf(e) == Some(t) && t in Apply(s, e).workers
    ensures var n, j := Apply(s, e), s.workers[t].job;
      Forgets(n.workers[t], n.rows, j) ==> Forgets(s.workers[t], s.rows, j)
  {
    hide J.Encode, J.Decode, Classify, Contains, WithStatus, WithBatch, Recall;
  }

  lemma SameRecall(a: Row, b: Row)
    requires a.pathsText == b.pathsText && a.destination == b.destination
    requires a.snapshot == b.snapshot || b.snapshot.None?
    ensures Recall(b).Some? ==> Recall(b) == Recall(a)
  {
  }

  lemma WorkerKeepsBatch(s: State, e: Event, t: nat, j: nat)
    requires Enabled(s, e, true) && WorkerOf(e) == Some(t)
    ensures BatchKept(s, Apply(s, e), j)
  {
    WorkerRow(s, e, t);
    WorkerBatch(s, e, t);
    WorkerForgets(s, e, t);
    assert Serves(s, t, s.workers[t].job);
    hide Apply, Enabled, Recall;
    var n, i := Apply(s, e), s.workers[t].job;
    SameRecall(s.rows[i], n.rows[i]);
    if Forgetting(n, j) {
      var u :| Serves(n, u, j) && Forgets(n.workers[u], n.rows, j);
      assert Serves(s, u, j);
      assert u != t && j == i ==> Forgets(s.workers[u], s.rows, j);
    }
  }

  /** Events of no worker: rows keep their batch and recall no more, and only a
      resume makes a worker that forgets. */
  lemma OthersForget(s: State, e: Event, t: nat)
    requires Core(s) && Enabled(s, e, true) && WorkerOf(e).None? && t in Apply(s, e).workers
    ensures var n := Apply(s, e);
      if t in s.workers then n.workers[t] == s.workers[t]
      else
        || n.workers[t].phase.Prepare?
        || (n.workers[t].phase.Load? && n.resumes[n.workers[t].job] > s.resumes[n.workers[t].job])
  {
    Bounds(s);
    hide Core, J.Encode, Interrupted, Elements, Distinct, Unlink, WithStatus;
  }

  lemma OthersKeepRows(s: State, e: Event, j: nat)
    requires Core(s) && Enabled(s, e, true) && WorkerOf(e).None?
    ensures var n := Apply(s, e);
      && s.resumes[j] <= n.resumes[j]
      && (j in s.rows ==> j in n.rows && n.rows[j].batch == s.rows[j].batch
                          && (Recall(n.rows[j]).Some? ==> Recall(s.rows[j]).Some?))
  {
    Bounds(s);
    hide Core, J.Encode, J.Decode, Recall, Elements, Interrupted, Distinct;
    var n := Apply(s, e);
    if j in s.rows {
      SameRecall(s.rows[j], n.rows[j]);
    }
  }

  lemma StepBatch(s: State, e: Event, j: nat)
    requires Core(s) && Enabled(s, e, true)
    ensures BatchKept(s, Apply(s, e), j)
  {
    hide Core, Apply, Enabled, Recall;
    if WorkerOf(e).Some? {
      WorkerKeepsBatch(s, e, WorkerOf(e).value, j);
    } else {
      WithoutBarrier(s, e);
      var n := Apply(s, e);
      OthersKeepRows(s, e, j);
      if j in s.rows {
        if Forgetting(n, j) {
          var u :| Serves(n, u, j) && Forgets(n.workers[u], n.rows, j);
          OthersForget(s, e, u);
          assert u in s.workers ==> Serves(s, u, j);
        }
      }
    }
  }

  lemma {:induction false} RunBatch(s: State, es: seq<Event>, j: nat)
    requires Good(s) && Run(s, es, true)
    ensures BatchKept(s, Final(s, es, true), j)
    decreases |es|
  {
    hide Apply, Enabled, Core, Forgetting;
    if es != [] {
      WithoutBarrier(s, es[0]);
      StepGood(s, es[0]);
      StepBatch(s, es[0], j);
      RunBatch(Apply(s, es[0]), es[1..], j);
    }
  }

  /** A recorded batch job stays recorded until the job's next resume, in
      whatever incarnation it was recorded and however often the job was resumed
      before. Since reconciliation fails exactly the open rows without one, it
      never fails such a row. */
  lemma BatchKeptUntilResumed(snapshots: set<nat>, s: State, n: State, j: nat)
    requires Reaches(Start(snapshots), s) && Reaches(s, n)
    requires j in s.rows && s.rows[j].batch.Some? && !Forgetting(s, j) && n.resumes[j] == s.resumes[j]
    ensures j in n.rows && n.rows[j].batch == s.rows[j].batch
  {
    hide Apply, Enabled, Core, Forgetting;
    ReachableGood(snapshots, s);
    var es :| Run(s, es, true) && Final(s, es, true) == n;
    RunBatch(s, es, j);
  }

  /** Exactly when a recorded batch job can get lost without a further resume:
      if a resumed worker that can read the row has not cleared it yet. */
  lemma BatchLostExact(snapshots: set<nat>, s: State, j: nat)
    requires Reaches(Start(snapshots), s) && j in s.rows && s.rows[j].batch.Some?
    ensures (exists n :: Reaches(s, n) && n.resumes[j] == s.resumes[j] && j in n.rows && n.rows[j].batch.None?)
       <==> Forgetting(s, j)
  {
    if Forgetting(s, j) {
      var n := ForgetsNext(s, j);
    } else if n :| Reaches(s, n) && n.resumes[j] == s.resumes[j] && j in n.rows && n.rows[j].batch.None? {
      BatchKeptUntilResumed(snapshots, s, n, j);
    }
  }

  lemma ForgetsNext(s: State, j: nat) returns (n: State)
    requires Forgetting(s, j) && j in s.rows
    ensures Reaches(s, n) && n.resumes == s.resumes && j in n.rows && n.rows[j].batch.None?
  {
    hide Reaches, Recall, J.Encode, J.Decode;
    ReachesSelf(s);
    var t :| Serves(s, t, j) && Forgets(s.workers[t], s.rows, j);
    n := s;
    if s.workers[t].phase.Load? {
      ReachesStep(s, n, Loaded(t));
      n := Apply(n, Loaded(t));
    }
    ReachesStep(s, n, Cleared(t));
    n := Apply(n, Cleared(t));
  }

  lemma Ordering(s: set<nat>) returns (order: seq<nat>)
    ensures Distinct(order) && Elements(order) == s
    decreases s, 1
  {
    if s == {} {
      order := [];
    } else {
      var j :| j in s;
      order := OrderingFrom(s, j);
    }
  }

  lemma OrderingFrom(s: set<nat>, j: nat) returns (order: seq<nat>)
    requires j in s
    ensures Distinct(order) && Elements(order) == s && order[..1] == [j]
    decreases s, 0
  {
    var rest := Ordering(s - {j});
    order := [j] + rest;
    assert forall i :: 0 < i < |order| ==> order[i] == rest[i - 1] && order[i] in Elements(rest);
    forall k ensures k in Elements(order) <==> k in s {
      assert k in rest <==> k in Elements(rest);
    }
  }

  /** A crash, the startup after it, or a resumed worker up to its first attempt:
      nothing fails, expires or is deleted. */
  predicate Restarting(e: Event) {
    e.Crashed? || e.Scanned? || e.Triaged? || e.Loaded? || e.Cleared?
  }

  /** `n` comes of `s` by `k` crashes, the startups after them, and nothing else. */
  ghost predicate ByCrashes(s: State, n: State, k: nat) {
    exists es :: Run(s, es, true) && Final(s, es, true) == n
      && (forall e :: e in es ==> Restarting(e)) && multiset(es)[Crashed] == k
  }

  lemma ByNoCrash(s: State)
    ensures ByCrashes(s, s, 0)
  {
    var es: seq<Event> := [];
    assert Run(s, es, true) && Final(s, es, true) == s && multiset(es)[Crashed] == 0;
  }

  lemma ByCrashesStep(s: State, n: State, k: nat, e: Event)
    requires ByCrashes(s, n, k) && Enabled(n, e, true) && Restarting(e)
    ensures Enabled(n, e, false) && ByCrashes(s, Apply(n, e), if e.Crashed? then k + 1 else k)
  {
    WithoutBarrier(n, e);
    hide Apply, Enabled;
    var es :| Run(s, es, true) && Final(s, es, true) == n
      && (forall e :: e in es ==> Restarting(e)) && multiset(es)[Crashed] == k;
    RunSnoc(s, es, e);
    assert multiset(es + [e]) == multiset(es) + multiset{e};
    assert forall d :: d in es + [e] ==> d in es || d == e;
  }

  /** A crash and the query, with job j at the head. */
  lemma Restarted(a: State, s: State, k: nat, j: nat) returns (n: State)
    requires ByCrashes(a, s, k) && Core(s) && j in s.rows && NonTerminal(s.rows[j].status)
    ensures ByCrashes(a, n, k + 1) && n.scanned && n.rows == s.rows && n.workers == map[]
    ensures n.todo != [] && n.todo[0] == Todo(j, s.rows[j].batch)
  {
    hide Core, ByCrashes, J.Encode, J.Decode;
    ByCrashesStep(a, s, k, Crashed);
    n := Apply(s, Crashed);
    var order := OrderingFrom(Interrupted(s.rows), j);
    assert order[0] == order[..1][0] == j;
    ByCrashesStep(a, n, k + 1, Scanned(order));
    n := Apply(n, Scanned(order));
  }

  /** The row an interrupted job has once its resumed worker forgot the batch. */
  lemma ResumesAndForgets(s: State, j: nat) returns (n: State)
    requires Core(s) && j in s.rows && NonTerminal(s.rows[j].status) && s.rows[j].batch.Some?
    requires Recall(s.rows[j]).Some?
    ensures ByCrashes(s, n, 1) && n.scanned && j in n.rows && n.rows[j] == s.rows[j].(batch := None)
  {
    hide Core, ByCrashes, Recall, J.Encode, J.Decode;
    ByNoCrash(s);
    n := Restarted(s, s, 0, j);
    var t := n.nextThread;
    ByCrashesStep(s, n, 1, Triaged);
    n := Apply(n, Triaged);
    ByCrashesStep(s, n, 1, Loaded(t));
    n := Apply(n, Loaded(t));
    ByCrashesStep(s, n, 1, Cleared(t));
    n := Apply(n, Cleared(t));
  }

  lemma CrashFails(a: State, s: State, k: nat, j: nat) returns (n: State)
    requires ByCrashes(a, s, k) && Core(s) && j in s.rows && NonTerminal(s.rows[j].status) && s.rows[j].batch.None?
    ensures ByCrashes(a, n, k + 1) && j in n.rows && n.rows[j].status == Failed
  {
    hide Core, ByCrashes, J.Encode, J.Decode;
    n := Restarted(a, s, k, j);
    ByCrashesStep(a, n, k + 1, Triaged);
    n := Apply(n, Triaged);
  }

  /** Two crashes and the startups after them, with nothing else happening, take
      any open job with a recorded batch job to failed: the resumed worker
      forgets the batch before the tool reports the next. */
  lemma SecondCrashForgets(snapshots: set<nat>, s: State, j: nat) returns (n: State)
    requires Reaches(Start(snapshots), s)
    requires j in s.rows && NonTerminal(s.rows[j].status) && s.rows[j].batch.Some? && Recall(s.rows[j]).Some?
    ensures ByCrashes(s, n, 2) && j in n.rows && n.rows[j].status == Failed
  {
    hide ByCrashes, Core, WarmOk, DoneOk, RunsOk, Apply, Enabled, Recall;
    ReachableGood(snapshots, s);
    var m := ResumesAndForgets(s, j);
    CoreAfter(s, m, 1);
    n := CrashFails(s, m, 1, j);
  }

  lemma CoreAfter(s: State, n: State, k: nat)
    requires Good(s) && ByCrashes(s, n, k)
    ensures Good(n) && Lasts(s, n)
  {
    hide Core, Apply, Enabled;
    var es :| Run(s, es, true) && Final(s, es, true) == n
      && (forall e :: e in es ==> Restarting(e)) && multiset(es)[Crashed] == k;
    RunGood(s, es);
  }

  /** The row stays open under restarts: before any crash its worker keeps the
      batch, and after one the query has seen the batch or will. */
  ghost predicate SafeSoFar(s: State, j: nat, k: nat) {
    && j in s.rows && NonTerminal(s.rows[j].status) && k <= 1
    && (k == 0 ==> s.scanned && s.rows[j].batch.Some? && !Forgetting(s, j))
    && (!s.scanned ==> s.rows[j].batch.Some? && s.workers == map[] && s.todo == [])
    && forall i :: 0 <= i < |s.todo| && s.todo[i].job == j ==> k == 1 && s.todo[i].batch.Some?
  }

  lemma SafeWorkerStep(s: State, e: Event, j: nat, k: nat)
    requires SafeSoFar(s, j, k) && Enabled(s, e, true) && (e.Loaded? || e.Cleared?)
    requires BatchKept(s, Apply(s, e), j)
    ensures SafeSoFar(Apply(s, e), j, k)
  {
    hide J.Encode, J.Decode, Recall, Forgets, BatchKept, Forgetting;
    var n := Apply(s, e);
    if k == 0 {
      BatchKeptMeans(s, n, j);
      if e.Cleared? && s.workers[e.t].job == j {
        ClearIsForgetting(s, e.t, j);
      }
    }
  }

  lemma ClearIsForgetting(s: State, t: nat, j: nat)
    requires Serves(s, t, j) && s.workers[t].phase.Clear?
    ensures Forgetting(s, j)
  {
    assert Forgets(s.workers[t], s.rows, j);
  }

  lemma BatchKeptMeans(s: State, n: State, j: nat)
    requires BatchKept(s, n, j) && n.resumes[j] == s.resumes[j]
    requires j in s.rows && s.rows[j].batch.Some? && !Forgetting(s, j)
    ensures j in n.rows && n.rows[j].batch == s.rows[j].batch && !Forgetting(n, j)
  {
  }

  lemma SafeStartupStep(s: State, e: Event, j: nat, k: nat)
    requires SafeSoFar(s, j, k) && Enabled(s, e, true)
    requires (e.Crashed? && k == 0) || e.Scanned? || e.Triaged?
    requires BatchKept(s, Apply(s, e), j)
    ensures SafeSoFar(Apply(s, e), j, if e.Crashed? then 1 else k)
  {
    hide J.Encode, J.Decode, Recall, Forgets, Elements, Interrupted, Distinct, Forgetting;
  }

  lemma SafeStep(s: State, e: Event, j: nat, k: nat)
    requires Core(s) && SafeSoFar(s, j, k) && Enabled(s, e, true) && Restarting(e) && (e.Crashed? ==> k == 0)
    ensures SafeSoFar(Apply(s, e), j, if e.Crashed? then 1 else k)
  {
    hide Core, Apply, Enabled, SafeSoFar, BatchKept;
    StepBatch(s, e, j);
    if e.Loaded? || e.Cleared? {
      SafeWorkerStep(s, e, j, k);
    } else {
      SafeStartupStep(s, e, j, k);
    }
  }

  lemma {:induction false} SafeRun(s: State, es: seq<Event>, j: nat, k: nat)
    requires Good(s) && SafeSoFar(s, j, k) && Run(s, es, true)
    requires (forall e :: e in es ==> Restarting(e)) && k + multiset(es)[Crashed] <= 1
    ensures SafeSoFar(Final(s, es, true), j, k + multiset(es)[Crashed])
    decreases |es|
  {
    hide Apply, Enabled, Core, SafeSoFar;
    if es != [] {
      var e := es[0];
      assert es == [e] + es[1..];
      assert multiset(es) == multiset{e} + multiset(es[1..]);
      WithoutBarrier(s, e);
      StepGood(s, e);
      SafeStep(s, e, j, k);
      SafeRun(Apply(s, e), es[1..], j, if e.Crashed? then 1 else k);
    }
  }

  /** For an open row with a recorded batch job that a running server works on:
      restarts alone take it to failed exactly if there are two of them or more. */
  lemma TwoCrashesExact(snapshots: set<nat>, s: State, j: nat, k: nat)
    requires Reaches(Start(snapshots), s) && s.scanned && s.todo == [] && !Forgetting(s, j)
    requires j in s.rows && NonTerminal(s.rows[j].status) && s.rows[j].batch.Some? && Recall(s.rows[j]).Some?
    ensures (exists n :: ByCrashes(s, n, k) && j in n.rows && n.rows[j].status == Failed) <==> k >= 2
  {
    ReachableGood(snapshots, s);
    if k >= 2 {
      hide Core, Recall, ByCrashes;
      var m := SecondCrashForgets(snapshots, s, j);
      var n := MoreCrashes(s, m, j, k - 2);
    } else if n :| ByCrashes(s, n, k) && j in n.rows && n.rows[j].status == Failed {
      assert SafeSoFar(s, j, 0);
      hide Apply, Enabled, Core, Forgetting, Recall;
      var es :| Run(s, es, true) && Final(s, es, true) == n
        && (forall e :: e in es ==> Restarting(e)) && multiset(es)[Crashed] == k;
      SafeRun(s, es, j, 0);
      assert false;
    }
  }

  /** A failed row stays failed under further crashes. */
  lemma MoreCrashes(s: State, m: State, j: nat, k: nat) returns (n: State)
    requires ByCrashes(s, m, 2) && j in m.rows && m.rows[j].status == Failed
    ensures ByCrashes(s, n, 2 + k) && j in n.rows && n.rows[j].status == Failed
  {
    hide ByCrashes;
    n := m;
    if k > 0 {
      n := MoreCrashes(s, m, j, k - 1);
      ByCrashesStep(s, n, 1 + k, Crashed);
      n := Apply(n, Crashed);
    }
  }

  // ---- The two assumptions -----------------------------------------------------------------------

  ghost predicate NothingLate(s: State) {
    s.dropped == {} && forall t :: t in s.workers ==> !s.workers[t].expired
  }

  /** No status is lost in a run in which no deadline passes. */
  lemma {:induction false} NothingLost(s: State, es: seq<Event>)
    requires NothingLate(s) && Run(s, es, true) && forall e :: e in es ==> !e.Expired?
    ensures NothingLate(Final(s, es, true))
    decreases |es|
  {
    hide Apply, Enabled;
    if es != [] {
      WithoutBarrier(s, es[0]);
      assert es[0] in es;
      StepInTime(s, es[0]);
      assert forall e :: e in es[1..] ==> e in es;
      NothingLost(Apply(s, es[0]), es[1..]);
    }
  }

  lemma StepInTime(s: State, e: Event)
    requires NothingLate(s) && Enabled(s, e, true) && !e.Expired?
    ensures NothingLate(Apply(s, e))
  {
    hide J.Encode, J.Decode, Classify, Contains, WithStatus, WithBatch, Recall, Unlink, Elements, Interrupted, Distinct;
  }

  ghost predicate TerminalKept(barrier: bool) {
    forall snapshots, es, more, j ::
      Run(Start(snapshots), es, barrier) && Run(Final(Start(snapshots), es, barrier), more, barrier)
      && j in Final(Start(snapshots), es, barrier).rows
      && !NonTerminal(Final(Start(snapshots), es, barrier).rows[j].status)
      ==> Holds(Final(Final(Start(snapshots), es, barrier), more, barrier), j)
  }

  predicate Holds(s: State, j: nat) {
    j in s.rows && !NonTerminal(s.rows[j].status)
  }

  /** Without the barrier a job created before the reconciliation query runs is
      marked failed under its live worker, which then reopens it. */
  lemma BarrierExact(barrier: bool)
    ensures TerminalKept(barrier) <==> barrier
  {
    if barrier {
      forall snapshots, es, more, j |
        Run(Start(snapshots), es, true) && Run(Final(Start(snapshots), es, true), more, true)
        && j in Final(Start(snapshots), es, true).rows && !NonTerminal(Final(Start(snapshots), es, true).rows[j].status)
        ensures Holds(Final(Final(Start(snapshots), es, true), more, true), j)
      {
        hide Apply, Enabled;
        var s := Final(Start(snapshots), es, true);
        TerminalForever(snapshots, s, Final(s, more, true), j);
      }
    } else {
      BarrierNeeded();
    }
  }

  lemma RunCons(s: State, e: Event, es: seq<Event>)
    requires Enabled(s, e, false) && Run(Apply(s, e), es, false)
    ensures Run(s, [e] + es, false) && Final(s, [e] + es, false) == Final(Apply(s, e), es, false)
  {
    hide Apply, Enabled;
    assert ([e] + es)[0] == e && ([e] + es)[1..] == es;
  }

  lemma RequestAndQuery(ask: Ask) returns (s: State)
    ensures Enabled(Start({ask.snapshot}), Initiate(ask), false)
    ensures var s1 := Apply(Start({ask.snapshot}), Initiate(ask));
      Enabled(s1, Scanned([0]), false) && s == Apply(s1, Scanned([0]))
    ensures s.todo == [Todo(0, None)] && 0 in s.rows && s.snapshots == {ask.snapshot}
    ensures s.workers == map[0 := Worker(0, Prepare(ask), false)]
  {
    hide J.Encode, J.Decode;
    var s1 := Apply(Start({ask.snapshot}), Initiate(ask));
    assert Interrupted(s1.rows) == {0} == Elements([0]);
    s := Apply(s1, Scanned([0]));
  }

  /** A request, the query, and the verdict on the new row. */
  lemma FailedUnderWorker(ask: Ask) returns (es: seq<Event>)
    ensures Run(Start({ask.snapshot}), es, false)
    ensures var s := Final(Start({ask.snapshot}), es, false);
      Holds(s, 0) && s.snapshots == {ask.snapshot} && s.workers == map[0 := Worker(0, Prepare(ask), false)]
  {
    hide J.Encode, J.Decode, Elements, Interrupted, Distinct;
    var s := RequestAndQuery(ask);
    var n := Apply(s, Triaged);
    assert Holds(n, 0) && n.snapshots == s.snapshots && n.workers == s.workers;
    assert Run(n, [], false);
    RunCons(s, Triaged, []);
    hide Apply, Enabled;
    RunCons(Apply(Start({ask.snapshot}), Initiate(ask)), Scanned([0]), [Triaged] + []);
    RunCons(Start({ask.snapshot}), Initiate(ask), [Scanned([0])] + ([Triaged] + []));
    es := [Initiate(ask)] + ([Scanned([0])] + ([Triaged] + []));
  }

  lemma Reopened(s: State, ask: Ask) returns (es: seq<Event>)
    requires 0 in s.rows && ask.snapshot in s.snapshots && s.workers == map[0 := Worker(0, Prepare(ask), false)]
    ensures Run(s, es, false) && !Holds(Final(s, es, false), 0)
  {
    hide J.Encode, J.Decode;
    var n := Apply(s, Prepared(0, true));
    assert Run(Apply(n, Requested(0)), [], false);
    RunCons(n, Requested(0), []);
    RunCons(s, Prepared(0, true), [Requested(0)] + []);
    es := [Prepared(0, true)] + ([Requested(0)] + []);
  }

  lemma BarrierNeeded()
    ensures !TerminalKept(false)
  {
    hide Apply, Enabled;
    var ask := Ask(0, [], "");
    var es := FailedUnderWorker(ask);
    var more := Reopened(Final(Start({0}), es, false), ask);
  }

  // ---- Which states can lose a finished row ----------------------------------------------------------

  /** A worker that can still get to write an open status. */
  predicate CanWrite(s: State, w: Worker, j: nat) {
    && !w.expired && j in s.rows
    && match w.phase
       case Load => CanRecall(s, j)
       case Clear(ask) => ask.snapshot in s.snapshots
       case Prepare(ask) => ask.snapshot in s.snapshots
       case Request(_) => true
       case Running(_) => true
       case Claim(_) => true
       case Send(_) => true
       case _ => false
  }

  predicate CanRecall(s: State, j: nat) {
    j in s.rows && Recall(s.rows[j]).Some? && Recall(s.rows[j]).value.snapshot in s.snapshots
  }

  /** Such a worker is on the job, or reconciliation is about to start one. */
  ghost predicate Exposed(s: State, j: nat) {
    (exists t :: Serves(s, t, j) && CanWrite(s, s.workers[t], j)) || (Due(s, j) && CanRecall(s, j))
  }

  ghost predicate CanReach(s: State, n: State) {
    exists es :: Run(s, es, false) && Final(s, es, false) == n
  }

  lemma CanCons(s: State, e: Event, n: State)
    requires Enabled(s, e, false) && CanReach(Apply(s, e), n)
    ensures CanReach(s, n)
  {
    hide Apply, Enabled;
    var es :| Run(Apply(s, e), es, false) && Final(Apply(s, e), es, false) == n;
    RunCons(s, e, es);
  }

  lemma CanSelf(s: State)
    ensures CanReach(s, s)
  {
    assert Run(s, [], false) && Final(s, [], false) == s;
  }

  /** Steps a worker is away from writing an open status. */
  function Away(p: Phase): nat {
    match p
    case Load => 6
    case Clear(_) => 5
    case Prepare(_) => 4
    case Claim(_) => 3
    case Send(_) => 2
    case _ => 1
  }

  lemma WorkerReopens(s: State, t: nat, j: nat) returns (n: State)
    requires Serves(s, t, j) && CanWrite(s, s.workers[t], j)
    ensures CanReach(s, n) && !Holds(n, j)
    decreases Away(s.workers[t].phase)
  {
    hide CanReach, Recall, Contains, Classify, J.Encode, J.Decode;
    var e := match s.workers[t].phase
      case Load => Loaded(t)
      case Clear(_) => Cleared(t)
      case Prepare(_) => Prepared(t, true)
      case Claim(_) => Claimed(t)
      case Send(_) => Sent(t)
      case Request(_) => Requested(t)
      case _ => Line(t, SENTINEL);
    var m := Apply(s, e);
    if e.Requested? || e.Line? {
      SentinelIsSeen();
      CanSelf(m);
      n := m;
    } else {
      assert Serves(m, t, j) && CanWrite(m, m.workers[t], j);
      n := WorkerReopens(m, t, j);
    }
    CanCons(s, e, n);
  }

  lemma SentinelIsSeen()
    ensures Classify(SENTINEL) == Sentinel
  {
    assert ContainsAt(SENTINEL, SENTINEL, 0);
    ClassifyExact(SENTINEL);
  }

  lemma DueReopens(s: State, j: nat) returns (n: State)
    requires Due(s, j) && CanRecall(s, j)
    ensures CanReach(s, n) && !Holds(n, j)
    decreases |s.todo|
  {
    hide CanReach, Recall, J.Encode, J.Decode;
    var m := Apply(s, Triaged);
    if s.todo[0].job == j && s.todo[0].batch.Some? {
      assert Serves(m, s.nextThread, j) && CanWrite(m, m.workers[s.nextThread], j);
      n := WorkerReopens(m, s.nextThread, j);
    } else {
      var i :| 0 <= i < |s.todo| && s.todo[i].job == j && s.todo[i].batch.Some?;
      assert m.todo[i - 1] == s.todo[i];
      SameRecall(m.rows[j], s.rows[j]);
      n := DueReopens(m, j);
    }
    CanCons(s, Triaged, n);
  }

  ghost predicate Sealed(s: State, j: nat) {
    Holds(s, j) && j < s.nextJob && !Exposed(s, j)
  }

  /** A worker that cannot write an open status does not come to it, and leaves
      a finished row finished. */
  lemma WorkerStaysSealed(s: State, e: Event, t: nat)
    requires Enabled(s, e, false) && WorkerOf(e) == Some(t) && Holds(s, s.workers[t].job)
    requires !CanWrite(s, s.workers[t], s.workers[t].job)
    ensures var n, j := Apply(s, e), s.workers[t].job;
      Holds(n, j) && (t in n.workers ==> !CanWrite(n, n.workers[t], j))
  {
    hide J.Encode, J.Decode, Classify, Contains, Recall;
    var n, j := Apply(s, e), s.workers[t].job;
    SameRecall(s.rows[j], n.rows[j]);
  }

  lemma WorkerSealed(s: State, e: Event, t: nat, j: nat)
    requires Enabled(s, e, true) && WorkerOf(e) == Some(t) && Sealed(s, j)
    ensures Enabled(s, e, false) && Sealed(Apply(s, e), j)
  {
    WithoutBarrier(s, e);
    WorkerRow(s, e, t);
    WorkerForgets(s, e, t);
    WorkerSame(s, e);
    var n, i := Apply(s, e), s.workers[t].job;
    assert Serves(s, t, i);
    if i == j {
      WorkerStaysSealed(s, e, t);
      WorkerBatch(s, e, t);
      SameRecall(s.rows[j], n.rows[j]);
    }
    hide Apply, Enabled, Recall;
    forall u | Serves(n, u, j) ensures !CanWrite(n, n.workers[u], j) {
      assert Serves(s, u, j);
    }
  }

  lemma WorkerSame(s: State, e: Event)
    requires Enabled(s, e, false) && WorkerOf(e).Some?
    ensures var n := Apply(s, e);
      n.snapshots == s.snapshots && n.todo == s.todo && n.nextJob == s.nextJob && n.asked == s.asked
  {
    hide J.Encode, J.Decode, Classify, Contains, Recall, WithStatus, WithBatch;
  }

  /** Events of no worker keep a finished row, make it recall no more, and make
      no worker that could write it unless one was due. */
  lemma OtherRow(s: State, e: Event, j: nat)
    requires Enabled(s, e, false) && WorkerOf(e).None? && Holds(s, j) && j < s.nextJob
    ensures var n := Apply(s, e);
      Holds(n, j) && j < n.nextJob && n.snapshots <= s.snapshots && (CanRecall(n, j) ==> CanRecall(s, j))
  {
    hide J.Encode, J.Decode, Recall, Elements, Interrupted, Distinct;
    SameRecall(s.rows[j], Apply(s, e).rows[j]);
  }

  lemma OtherDue(s: State, e: Event, j: nat)
    requires Enabled(s, e, false) && WorkerOf(e).None? && Holds(s, j)
    ensures Due(Apply(s, e), j) ==> Due(s, j)
  {
    hide J.Encode, J.Decode, Recall, Unlink, Distinct;
    var n := Apply(s, e);
    if e.Triaged? {
      assert forall i :: 0 <= i < |n.todo| ==> n.todo[i] == s.todo[i + 1];
    } else if e.Scanned? {
      assert forall i :: 0 <= i < |e.order| ==> e.order[i] in Elements(e.order);
    }
  }

  lemma OtherServer(s: State, e: Event, j: nat, u: nat)
    requires Enabled(s, e, false) && WorkerOf(e).None? && j < s.nextJob && Serves(Apply(s, e), u, j)
    ensures var w := Apply(s, e).workers[u];
      (u in s.workers && s.workers[u] == w) || (w.phase.Load? && Due(s, j))
  {
    hide J.Encode, J.Decode, Recall, Unlink, Elements, Interrupted, Distinct;
    assert e.Triaged? && s.todo[0].job == j && s.todo[0].batch.Some? ==> Due(s, j);
  }

  lemma OtherSealed(s: State, e: Event, j: nat)
    requires Enabled(s, e, false) && WorkerOf(e).None? && Sealed(s, j)
    ensures Sealed(Apply(s, e), j)
  {
    OtherRow(s, e, j);
    OtherDue(s, e, j);
    hide Apply, Enabled, Recall, Due;
    var n := Apply(s, e);
    forall u | Serves(n, u, j) ensures !CanWrite(n, n.workers[u], j) {
      OtherServer(s, e, j, u);
      assert u in s.workers ==> s.workers[u] == n.workers[u] ==> Serves(s, u, j);
    }
  }

  lemma {:induction false} RunSealed(s: State, es: seq<Event>, j: nat)
    requires Sealed(s, j) && Run(s, es, false)
    ensures Sealed(Final(s, es, false), j)
    decreases |es|
  {
    if es != [] {
      assert WorkerOf(es[0]).Some? ==> Enabled(s, es[0], true);
      hide Apply, Enabled, Sealed;
      if WorkerOf(es[0]).Some? {
        WorkerSealed(s, es[0], WorkerOf(es[0]).value, j);
      } else {
        OtherSealed(s, es[0], j);
      }
      RunSealed(Apply(s, es[0]), es[1..], j);
    }
  }

  /** For every state and every finished row, whether or not requests wait for
      the reconciliation query: some run from there reopens the row exactly if
      a worker that can still write is on it or is about to be started. */
  lemma ReopenExact(s: State, j: nat)
    requires Holds(s, j) && j < s.nextJob
    ensures (exists n :: CanReach(s, n) && !Holds(n, j)) <==> Exposed(s, j)
  {
    if Exposed(s, j) {
      if Due(s, j) && CanRecall(s, j) {
        var n := DueReopens(s, j);
      } else {
        var t :| Serves(s, t, j) && CanWrite(s, s.workers[t], j);
        var n := WorkerReopens(s, t, j);
      }
    } else if n :| CanReach(s, n) && !Holds(n, j) {
      hide Apply, Enabled;
      var es :| Run(s, es, false) && Final(s, es, false) == n;
      RunSealed(s, es, j);
    }
  }
}
