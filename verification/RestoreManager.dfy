/** The goroutines of the restore manager as sequential code over the job table
    (api/internal/restore/restore.go:63-149, resume.go:88-127, 162-191). Each
    method takes the machine of RestoreLifecycle through a run of its events,
    so what is proved of all runs holds of what the methods leave behind. */
module RestoreManager {
  import opened Wrappers
  import opened RestoreHook
  import opened RestoreLifecycle
  import J = JsonPaths

  /** How the outside world treats one attempt: whether preparing works, the
      output of rustic, whether it succeeds, and which statement is the first
      to be issued after the deadline: 0 is the first status, i the i-th line's,
      and the two at the end follow the last line's. */
  datatype World = World(prepared: bool, lines: seq<string>, success: bool, deadline: nat)

  function SeesIn(w: World): (ls: seq<Seen>)
    ensures |ls| == |w.lines|
  {
    seq(|w.lines|, i requires 0 <= i < |w.lines| => Seen(Classify(w.lines[i]), i + 1 < w.deadline))
  }

  /** Whether the last status is written. */
  predicate InTime(w: World) {
    |w.lines| + 2 < w.deadline
  }

  function Begun(row: Row, w: World): HookState {
    HookState(WithStatus(row, WarmupRequested, 0 < w.deadline), "", [])
  }

  /** The row after an attempt of `run`. */
  function Attempted(row: Row, w: World): Row {
    if !w.prepared then row
    else
      var after := After(Begun(row, w), SeesIn(w), |w.lines|).row;
      if !w.success then after
      else Concluded(after, w)
  }

  /** The last two statements of a successful attempt. */
  function Concluded(row: Row, w: World): Row {
    WithStatus(if |w.lines| + 1 < w.deadline then row.(stamped := true) else row, Completed, InTime(w))
  }

  lemma {:induction false} HookLeavesOpen(h: HookState, ls: seq<Seen>, n: nat)
    requires n <= |ls| && NonTerminal(h.row.status)
    ensures NonTerminal(After(h, ls, n).row.status)
  {
    hide Classify, Contains;
    if n > 0 {
      HookLeavesOpen(h, ls, n - 1);
    }
  }

  /** One line more. */
  lemma AfterOneMore(h: HookState, w: World, i: nat)
    requires i < |w.lines|
    ensures After(h, SeesIn(w), i + 1) == OnLine(After(h, SeesIn(w), i), Seen(Classify(w.lines[i]), i + 1 < w.deadline))
  {
    hide Classify, OnLine;
  }

  /** An attempt completes an open row exactly if everything works out before
      the deadline; otherwise it leaves it open. It sets completed_at exactly if
      rustic succeeds and that statement is in time. */
  lemma AttemptExact(row: Row, w: World)
    requires NonTerminal(row.status)
    ensures var r := Attempted(row, w);
      && (r.status == Completed <==> w.prepared && w.success && InTime(w)) && r.status != Failed
      && r == row.(status := r.status, batch := r.batch, notified := r.notified,
                   stamped := row.stamped || (w.prepared && w.success && |w.lines| + 1 < w.deadline))
    ensures !w.prepared ==> Attempted(row, w) == row
  {
    hide After;
    HookLeavesOpen(Begun(row, w), SeesIn(w), |w.lines|);
    OthersStay(Begun(row, w), SeesIn(w), |w.lines|);
  }

  /** What else an attempt leaves in a row without a batch job: the ID of the
      first report in time, whether a sentinel came, and the status that the last
      step in time stands for. */
  lemma AttemptShows(row: Row, w: World)
    requires w.prepared && row.batch.None?
    ensures var r, ls, n := Attempted(row, w), SeesIn(w), |w.lines|; var i := FirstRecord(ls, 0);
      && r.batch == (if i < n then Some(ls[i].kind.id) else None)
      && (r.notified <==> row.notified || FirstSentinel(ls, 0) < n)
      && r.status == if w.success && InTime(w) then Completed
                     else if CompletedSince(ls, i, n) then RetrievalComplete
                     else if i < n then RetrievalInProgress
                     else if 0 < w.deadline then WarmupRequested
                     else row.status
  {
    hide After, FirstRecord, FirstSentinel, CompletedSince;
    var h, ls := Begun(row, w), SeesIn(w);
    IdsAfter(h, ls, |ls|);
    StatusExact(h, ls, |ls|);
    OneNotice(h, ls, |ls|);
  }

  // ---- Reconciliation ------------------------------------------------------------------

  predicate NeverSubmitted(row: Row) {
    NonTerminal(row.status) && row.batch.None?
  }

  /** The rows after the first `n` interrupted jobs were triaged. */
  function Marked(rows: map<nat, Row>, order: seq<nat>, n: nat): (r: map<nat, Row>)
    requires n <= |order| && forall j :: j in order ==> j in rows
    ensures r.Keys == rows.Keys
  {
    if n == 0 then rows
    else
      var j := order[n - 1];
      var m := Marked(rows, order, n - 1);
      if rows[j].batch.None? then m[j := WithStatus(rows[j], Failed, true)] else m
  }

  /** The jobs among the first `n` that are resumed. */
  function Resumed(rows: map<nat, Row>, order: seq<nat>, n: nat): seq<nat>
    requires n <= |order| && forall j :: j in order ==> j in rows
  {
    if n == 0 then []
    else
      var j := order[n - 1];
      Resumed(rows, order, n - 1) + if rows[j].batch.None? then [] else [j]
  }

  lemma {:induction false} MarkedAt(rows: map<nat, Row>, order: seq<nat>, n: nat, j: nat)
    requires n <= |order| && Distinct(order) && (forall k :: k in order ==> k in rows) && j in rows
    ensures Marked(rows, order, n)[j] ==
      if j in order[..n] && rows[j].batch.None? then WithStatus(rows[j], Failed, true) else rows[j]
    ensures j in Resumed(rows, order, n) <==> j in order[..n] && rows[j].batch.Some?
  {
    if n > 0 {
      MarkedAt(rows, order, n - 1, j);
      assert order[..n] == order[..n - 1] + [order[n - 1]];
    }
  }

  lemma {:induction false} ResumedOnce(rows: map<nat, Row>, order: seq<nat>, n: nat)
    requires n <= |order| && Distinct(order) && forall k :: k in order ==> k in rows
    ensures Distinct(Resumed(rows, order, n)) && forall j :: j in Resumed(rows, order, n) ==> j in order[..n]
  {
    if n > 0 {
      ResumedOnce(rows, order, n - 1);
      assert order[..n] == order[..n - 1] + [order[n - 1]];
      var was := Resumed(rows, order, n - 1);
      assert forall a :: 0 <= a < |was| ==> was[a] in order[..n - 1];
      assert order[n - 1] !in order[..n - 1];
    }
  }

  /** Reconciliation fails exactly the open rows without a batch job, resumes
      exactly the other open rows, once each, and leaves all finished rows alone. */
  lemma ReconcileExact(rows: map<nat, Row>, order: seq<nat>, j: nat)
    requires Distinct(order) && Elements(order) == Interrupted(rows) && j in rows
    ensures forall k :: k in order ==> k in rows
    ensures Marked(rows, order, |order|)[j] == if NeverSubmitted(rows[j]) then rows[j].(status := Failed) else rows[j]
    ensures j in Resumed(rows, order, |order|) <==> NonTerminal(rows[j].status) && !NeverSubmitted(rows[j])
    ensures Distinct(Resumed(rows, order, |order|))
  {
    InRows(rows, order);
    ResumedOnce(rows, order, |order|);
    MarkedAt(rows, order, |order|, j);
    assert order[..|order|] == order;
    assert j in order <==> j in Elements(order);
  }

  lemma InRows(rows: map<nat, Row>, order: seq<nat>)
    requires Elements(order) == Interrupted(rows)
    ensures forall j :: j in order ==> j in rows && NonTerminal(rows[j].status)
  {
    assert forall j :: j in order ==> j in Elements(order);
  }

  /** A worker's steps between its first status and its end leave these alone. */
  ghost predicate SameElse(s: State, n: State) {
    n.scanned == s.scanned && n.todo == s.todo && n.snapshots == s.snapshots && n.nextJob == s.nextJob
    && n.nextThread == s.nextThread && n.doneNotices == s.doneNotices && n.lost == s.lost
  }

  lemma SameSelf(s: State)
    ensures SameElse(s, s)
  {
  }

  lemma SameThrough(a: State, b: State, c: State)
    ensures SameElse(a, b) && SameElse(b, c) ==> SameElse(a, c)
  {
  }

  class Manager {
    const table: JobTable
    var nextJob: nat
    var doneNotices: seq<nat>
    var spawned: seq<nat>        // jobs a resuming goroutine was started for
    ghost var now: State

    ghost predicate Valid()
      reads this, table
    {
      table.rows == now.rows && nextJob == now.nextJob && doneNotices == now.doneNotices
    }

    ghost predicate Works(t: nat, job: nat, phase: Phase, expired: bool)
      reads this, table
    {
      t in now.workers && now.workers[t] == Worker(job, phase, expired) && job in table.rows
    }

    constructor (snapshots: set<nat>)
      ensures Valid() && now == Start(snapshots) && fresh(table)
    {
      table := new JobTable();
      nextJob, doneNotices, spawned := 0, [], [];
      now := Start(snapshots);
    }

    /** The machine takes an event. */
    ghost method Take(e: Event)
      requires Enabled(now, e, true)
      modifies this`now
      ensures Enabled(old(now), e, false) && now == Apply(old(now), e)
      ensures forall s :: Reaches(s, old(now)) ==> Reaches(s, now)
    {
      hide Apply, Enabled, Reaches;
      WithoutBarrier(now, e);
      forall s | Reaches(s, now) ensures Reaches(s, Apply(now, e)) {
        ReachesStep(s, now, e);
      }
      now := Apply(now, e);
    }

    /** Initiate: insert the row and start a worker. */
    method Initiate(ask: Ask) returns (job: nat, ghost t: nat)
      requires Valid() && now.scanned && ask.snapshot in now.snapshots
      modifies this, table
      ensures Valid() && Reaches(old(now), now)
      ensures table.rows == old(table.rows)[job :=
        Row(Some(ask.snapshot), J.Encode(ask.paths), ask.destination, Queued, None, false, false)]
      ensures Core(old(now)) ==> job !in old(table.rows)
      ensures Works(t, job, Prepare(ask), false)
    {
      hide J.Encode, Core;
      ReachesSelf(now);
      if Core(now) {
        Bounds(now);
      }
      job := nextJob;
      t := now.nextThread;
      Take(Event.Initiate(ask));
      table.rows := table.rows[job := NewRow(ask)];
      nextJob := nextJob + 1;
    }

    /** The deadline passes if it is due at this statement. */
    ghost method Clock(t: nat, step: nat, deadline: nat)
      requires Valid() && At(now, t) && !now.workers[t].phase.Load? && !now.workers[t].phase.Clear?
      requires now.workers[t].expired == (step > deadline)
      modifies this`now
      ensures Valid()
        && now == old(now).(workers := old(now).workers[t := old(now).workers[t].(expired := step >= deadline)])
      ensures forall s :: Reaches(s, old(now)) ==> Reaches(s, now)
    {
      if step == deadline {
        Take(Expired(t));
      } else {
        assert now.workers[t := now.workers[t]] == now.workers;
      }
    }

    /** The machine's steps for one output line. */
    ghost method TakeLine(t: nat, job: nat, id: string, line: string)
      requires Valid() && t in now.workers && Works(t, job, Running(id), now.workers[t].expired)
      modifies this`now
      ensures var l := Seen(Classify(line), !old(now.workers[t].expired));
        var h := OnLine(HookState(table.rows[job], id, []), l);
        now.rows == table.rows[job := h.row] && t in now.workers
        && now.workers[t] == Worker(job, Running(h.id), old(now.workers[t].expired))
        && now.warmNotices == old(now.warmNotices) + if h.notices == [] then [] else [(job, h.notices[0])]
      ensures SameElse(old(now), now)
      ensures forall s :: Reaches(s, old(now)) ==> Reaches(s, now)
    {
      hide J.Encode, J.Decode, Classify, Contains, Reaches, Recall, Unlink, Elements, Interrupted, Distinct, Triage;
      ghost var s := now;
      Take(Line(t, line));
      if Classify(line).Sentinel? {
        var notified := s.rows[job].notified;
        Take(Claimed(t));
        if !notified {
          Take(Sent(t));
        }
      } else {
        assert s.rows[job := s.rows[job]] == s.rows;
      }
    }

    /** One output line reaches the hook. */
    method Feed(ghost t: nat, hook: LineHook, line: string, ghost step: nat, ghost deadline: nat, written: bool)
      requires Valid() && hook.table == table && Works(t, hook.jobId, Running(hook.batchJobID), step > deadline)
      requires written == (step < deadline)
      modifies this`now, table, hook
      ensures Valid() && Works(t, hook.jobId, Running(hook.batchJobID), step >= deadline)
      ensures hook.jobId in old(table.rows) && hook.State() == OnLine(old(hook.State()), Seen(Classify(line), written))
      ensures table.rows == old(table.rows)[hook.jobId := table.rows[hook.jobId]]
      ensures SameElse(old(now), now)
      ensures forall s :: Reaches(s, old(now)) ==> Reaches(s, now)
    {
      hide Reaches, Apply, Enabled, Classify, Contains;
      Clock(t, step, deadline);
      TakeLine(t, hook.jobId, hook.batchJobID, line);
      hook.Call(line, written);
    }

    /** The output of one restore process, line by line. */
    method RunRestore(ghost t: nat, hook: LineHook, w: World)
      requires Valid() && hook.table == table && Works(t, hook.jobId, Running(hook.batchJobID), 0 >= w.deadline)
      modifies this`now, table, hook
      ensures Valid() && Works(t, hook.jobId, Running(hook.batchJobID), |w.lines| >= w.deadline)
      ensures hook.jobId in old(table.rows) && hook.State() == After(old(hook.State()), SeesIn(w), |w.lines|)
      ensures table.rows == old(table.rows)[hook.jobId := table.rows[hook.jobId]]
      ensures SameElse(old(now), now)
      ensures forall s :: Reaches(s, old(now)) ==> Reaches(s, now)
    {
      assert hook.jobId in table.rows;
      assert After(hook.State(), SeesIn(w), 0) == hook.State();
      hide Reaches, Works, OnLine, After, SeesIn, Apply, Enabled, Classify, SameElse;
      SameSelf(now);
      assert table.rows == table.rows[hook.jobId := table.rows[hook.jobId]];
      for i := 0 to |w.lines|
        invariant Valid() && Works(t, hook.jobId, Running(hook.batchJobID), i >= w.deadline)
        invariant hook.jobId in table.rows && hook.State() == After(old(hook.State()), SeesIn(w), i)
        invariant table.rows == old(table.rows)[hook.jobId := table.rows[hook.jobId]]
        invariant SameElse(old(now), now)
        invariant forall s :: Reaches(s, old(now)) ==> Reaches(s, now)
      {
        AfterOneMore(old(hook.State()), w, i);
        ghost var before := now;
        Feed(t, hook, w.lines[i], i + 1, w.deadline, i + 1 < w.deadline);
        SameThrough(old(now), before, now);
      }
    }

    /** One statement of a worker, issued as step `step` of its attempt. */
    ghost method TakeTimed(t: nat, job: nat, phase: Phase, step: nat, deadline: nat, e: Event)
      requires Valid() && Works(t, job, phase, step > deadline) && !phase.Load? && !phase.Clear?
      requires || (e == Requested(t) && phase.Request?)
               || (e == Stamped(t) && phase.Stamp?)
               || (e == Finished(t) && phase.Complete?)
      modifies this`now
      ensures var row, written := table.rows[job], step < deadline;
        now.rows == table.rows[job := match e
          case Requested(_) => WithStatus(row, WarmupRequested, written)
          case Stamped(_) => if written then row.(stamped := true) else row
          case _ => WithStatus(row, Completed, written)]
      ensures t in now.workers
      ensures now.workers[t] ==
        Worker(job, if e.Requested? then Running("") else if e.Stamped? then Complete else Announce, step >= deadline)
      ensures now.runs == old(now.runs) + if phase.Request? then [(job, phase.ask)] else []
      ensures SameElse(old(now), now.(lost := old(now.lost)))
      ensures now.lost == old(now.lost) + if e.Finished? && step >= deadline then {job} else {}
      ensures forall s :: Reaches(s, old(now)) ==> Reaches(s, now)
    {
      hide Reaches, J.Encode, J.Decode, Classify, Contains;
      Clock(t, step, deadline);
      Take(e);
    }

    /** A step that changes no row. */
    ghost method TakeSilent(t: nat, job: nat, phase: Phase, expired: bool, e: Event)
      requires Valid() && Works(t, job, phase, expired)
      requires (e == Prepared(t, true) && phase.Prepare? && phase.ask.snapshot in now.snapshots)
            || (e == Prepared(t, false) && phase.Prepare?) || (e.Exited? && e.t == t && phase.Running?)
      modifies this`now
      ensures Valid()
      ensures Works(t, job, if !e.ok then Phase.Fail else if e.Prepared? then Request(phase.ask) else Stamp, expired)
      ensures SameElse(old(now), now)
      ensures forall s :: Reaches(s, old(now)) ==> Reaches(s, now)
    {
      hide Reaches, J.Encode, J.Decode, Classify, Contains;
      Take(e);
      assert table.rows == table.rows[job := table.rows[job]];
    }

    /** The end of run: completed_at, the last status, the notice. */
    method Conclude(ghost t: nat, job: nat, w: World)
      requires Valid() && Works(t, job, Stamp, |w.lines| >= w.deadline)
      modifies this`now, this`doneNotices, table
      ensures Valid() && now.scanned == old(now.scanned)
      ensures table.rows == old(table.rows)[job := Concluded(old(table.rows[job]), w)]
      ensures t !in now.workers && doneNotices == old(doneNotices) + [job]
      ensures now.lost == old(now.lost) + if InTime(w) then {} else {job}
      ensures forall s :: Reaches(s, old(now)) ==> Reaches(s, now)
    {
      hide Reaches, Apply, Enabled;
      TakeTimed(t, job, Stamp, |w.lines| + 1, w.deadline, Stamped(t));
      table.Stamp(job, |w.lines| + 1 < w.deadline);
      TakeTimed(t, job, Complete, |w.lines| + 2, w.deadline, Finished(t));
      table.SetStatus(job, Completed, InTime(w));
      TakeAnnounce(t, job);
      doneNotices := doneNotices + [job];
    }

    /** The warm-up and the download: the first status, then rustic. */
    method WarmAndDownload(ghost t: nat, job: nat, ghost ask: Ask, w: World)
      requires Valid() && Works(t, job, Request(ask), false)
      modifies this`now, table
      ensures Valid() && now.scanned == old(now.scanned) && now.lost == old(now.lost) && doneNotices == old(doneNotices)
      ensures job in old(table.rows)
      ensures table.rows == old(table.rows)[job := After(Begun(old(table.rows[job]), w), SeesIn(w), |w.lines|).row]
      ensures Works(t, job, if w.success then Stamp else Phase.Fail, |w.lines| >= w.deadline)
      ensures forall s :: Reaches(s, old(now)) ==> Reaches(s, now)
    {
      hide Reaches, Apply, Enabled, After, SeesIn;
      TakeTimed(t, job, Request(ask), 0, w.deadline, Requested(t));
      table.SetStatus(job, WarmupRequested, 0 < w.deadline);
      var hook := new LineHook(table, job);
      RunRestore(t, hook, w);
      TakeSilent(t, job, Running(hook.batchJobID), |w.lines| >= w.deadline, Exited(t, w.success));
    }

    /** run: one attempt, first or resumed. */
    method Run(ghost t: nat, job: nat, ghost ask: Ask, w: World) returns (ok: bool)
      requires Valid() && Works(t, job, Prepare(ask), false) && (w.prepared ==> ask.snapshot in now.snapshots)
      modifies this, table
      ensures Valid() && Reaches(old(now), now) && spawned == old(spawned) && now.scanned == old(now.scanned)
      ensures ok <==> w.prepared && w.success
      ensures table.rows == old(table.rows)[job := Attempted(old(table.rows[job]), w)]
      ensures !ok ==> t in now.workers && now.workers[t].job == job && now.workers[t].phase == Phase.Fail
      ensures !ok ==> doneNotices == old(doneNotices)
      ensures ok ==> t !in now.workers && doneNotices == old(doneNotices) + [job]
      ensures now.lost == old(now.lost) + if ok && !InTime(w) then {job} else {}
    {
      hide Reaches, Apply, Enabled, After, Concluded;
      ReachesSelf(now);
      TakeSilent(t, job, Prepare(ask), false, Prepared(t, w.prepared));
      if !w.prepared {
        assert table.rows[job := table.rows[job]] == table.rows;
        return false;
      }
      WarmAndDownload(t, job, ask, w);
      if !w.success {
        return false;
      }
      Conclude(t, job, w);
      return true;
    }

    /** The goroutine around run: an error becomes status failed. */
    method RunOrFail(ghost t: nat, job: nat, ghost ask: Ask, w: World)
      requires Valid() && Works(t, job, Prepare(ask), false) && (w.prepared ==> ask.snapshot in now.snapshots)
      modifies this, table
      ensures Valid() && Reaches(old(now), now) && spawned == old(spawned)
      ensures w.prepared && w.success ==> table.rows == old(table.rows)[job := Attempted(old(table.rows[job]), w)]
      ensures !(w.prepared && w.success) ==>
        table.rows == old(table.rows)[job := WithStatus(Attempted(old(table.rows[job]), w), Failed, true)]
      ensures doneNotices == old(doneNotices) + if w.prepared && w.success then [job] else []
      ensures t !in now.workers
      ensures now.lost == old(now.lost) + if w.prepared && w.success && !InTime(w) then {job} else {}
    {
      hide Attempted;
      var ok := Run(t, job, ask, w);
      if !ok {
        Fail(t, job);
      }
    }

    method Fail(ghost t: nat, job: nat)
      requires Valid() && t in now.workers && now.workers[t].job == job && now.workers[t].phase.Fail?
        && job in table.rows
      modifies this`now, table
      ensures Valid() && t !in now.workers && now.lost == old(now.lost)
      ensures table.rows == old(table.rows)[job := WithStatus(old(table.rows[job]), Failed, true)]
      ensures forall s :: Reaches(s, old(now)) ==> Reaches(s, now)
    {
      hide Reaches, J.Encode, J.Decode, Classify, Contains;
      Take(MarkedFailed(t));
      table.SetStatus(job, Failed, true);
    }

    /** resumeAfterRestart: read the row, forget the batch job, run again. */
    method ResumeAfterRestart(ghost t: nat, job: nat, w: World)
      requires Valid() && Works(t, job, Load, false)
      requires w.prepared && table.rows[job].snapshot.Some? ==> table.rows[job].snapshot.value in now.snapshots
      modifies this, table
      ensures Valid() && Reaches(old(now), now) && t !in now.workers
      ensures var row := old(table.rows[job]); table.rows == old(table.rows)[job :=
        if Recall(row).None? then WithStatus(row, Failed, true)
        else if w.prepared && w.success then Attempted(row.(batch := None), w)
        else WithStatus(Attempted(row.(batch := None), w), Failed, true)]
    {
      hide Reaches, Apply, Enabled, Attempted, J.Decode;
      ReachesSelf(now);
      var row := table.rows[job];
      TakeLoaded(t, job);
      if row.snapshot.None? {
        Fail(t, job);
        return;
      }
      var paths := J.Decode(row.pathsText);
      if paths.None? {
        Fail(t, job);
        return;
      }
      ghost var ask := Ask(row.snapshot.value, paths.value, row.destination);
      TakeCleared(t, job, ask);
      table.ClearBatch(job);
      ghost var before := now;
      RunOrFail(t, job, ask, w);
      ReachesThrough(old(now), before, now);
    }

    ghost method TakeLoaded(t: nat, job: nat)
      requires Valid() && Works(t, job, Load, false)
      modifies this`now
      ensures Valid() && SameElse(old(now), now)
      ensures Works(t, job, match Recall(table.rows[job]) case None => Phase.Fail case Some(ask) => Clear(ask), false)
      ensures forall s :: Reaches(s, old(now)) ==> Reaches(s, now)
    {
      hide Reaches, J.Encode, J.Decode, Classify, Contains, Recall;
      Take(Loaded(t));
      assert table.rows == table.rows[job := table.rows[job]];
    }

    ghost method TakeCleared(t: nat, job: nat, ask: Ask)
      requires Valid() && Works(t, job, Clear(ask), false)
      modifies this`now
      ensures now.rows == table.rows[job := table.rows[job].(batch := None)] && SameElse(old(now), now)
      ensures t in now.workers && now.workers[t] == Worker(job, Prepare(ask), false)
      ensures forall s :: Reaches(s, old(now)) ==> Reaches(s, now)
    {
      hide Reaches, J.Encode, J.Decode, Classify, Contains;
      Take(Cleared(t));
    }

    ghost method TakeAnnounce(t: nat, job: nat)
      requires Valid() && t in now.workers && now.workers[t].job == job && now.workers[t].phase.Announce?
        && job in table.rows
      modifies this`now
      ensures now.rows == table.rows && t !in now.workers
      ensures SameElse(old(now), now.(doneNotices := old(now.doneNotices)))
        && now.doneNotices == old(now.doneNotices) + [job]
      ensures forall s :: Reaches(s, old(now)) ==> Reaches(s, now)
    {
      hide Reaches, J.Encode, J.Decode, Classify, Contains;
      Take(Announced(t));
      assert table.rows == table.rows[job := table.rows[job]];
    }

    /** ReconcileInterruptedJobs: the query's rows in the order it returns them. */
    method ReconcileInterruptedJobs(order: seq<nat>)
      requires Valid() && !now.scanned && Distinct(order) && Elements(order) == Interrupted(table.rows)
      modifies this, table
      ensures Valid() && Reaches(old(now), now) && now.scanned && now.todo == []
      ensures forall j :: j in order ==> j in old(table.rows)
      ensures table.rows == Marked(old(table.rows), order, |order|)
      ensures spawned == old(spawned) + Resumed(old(table.rows), order, |order|)
    {
      hide Reaches, Apply, Enabled;
      ghost var rows := table.rows;
      InRows(rows, order);
      ReachesSelf(now);
      TakeScanned(order);
      ghost var todo := now.todo;
      for i := 0 to |order|
        invariant Valid() && now.scanned && Reaches(old(now), now)
        invariant now.todo == todo[i..]
        invariant table.rows == Marked(rows, order, i)
        invariant spawned == old(spawned) + Resumed(rows, order, i)
      {
        MarkedAt(rows, order, i, order[i]);
        assert todo[i..][0] == Todo(order[i], rows[order[i]].batch) && todo[i..][1..] == todo[i + 1..];
        TriageOne(order[i]);
      }
    }

    /** One row of the query: fail it or start a goroutine that resumes it. */
    method TriageOne(job: nat)
      requires Valid() && job in table.rows && now.todo != [] && now.todo[0] == Todo(job, table.rows[job].batch)
      modifies this, table
      ensures Valid() && now.scanned == old(now.scanned) && now.todo == old(now.todo)[1..]
      ensures var row := old(table.rows[job]);
        if row.batch.None? then table.rows == old(table.rows)[job := WithStatus(row, Failed, true)]
          && spawned == old(spawned)
        else table.rows == old(table.rows) && spawned == old(spawned) + [job] && Served(now, job)
      ensures forall s :: Reaches(s, old(now)) ==> Reaches(s, now)
    {
      hide Reaches, Apply, Enabled, Served;
      var batch := table.rows[job].batch;
      TakeTriaged(job, batch);
      if batch.None? {
        table.SetStatus(job, Failed, true);
      } else {
        spawned := spawned + [job];
      }
    }

    ghost method TakeScanned(order: seq<nat>)
      requires Valid() && !now.scanned && Distinct(order) && Elements(order) == Interrupted(table.rows)
      requires forall j :: j in order ==> j in table.rows
      modifies this`now
      ensures Valid() && now.scanned && |now.todo| == |order|
      ensures forall k :: 0 <= k < |order| ==> now.todo[k] == Todo(order[k], table.rows[order[k]].batch)
      ensures forall s :: Reaches(s, old(now)) ==> Reaches(s, now)
    {
      hide Reaches, J.Encode, J.Decode, Classify, Contains;
      Take(Scanned(order));
    }

    ghost method TakeTriaged(job: nat, batch: Option<string>)
      requires Valid() && now.todo != [] && now.todo[0] == Todo(job, batch) && job in table.rows
      modifies this`now
      ensures now.scanned == old(now.scanned) && now.todo == old(now.todo)[1..]
      ensures now.nextJob == old(now.nextJob) && now.doneNotices == old(now.doneNotices)
      ensures now.rows == if batch.None? then table.rows[job := WithStatus(table.rows[job], Failed, true)]
        else table.rows
      ensures batch.Some? ==> Served(now, job)
      ensures forall s :: Reaches(s, old(now)) ==> Reaches(s, now)
    {
      hide Reaches, J.Encode, J.Decode, Classify, Contains;
      ghost var t := now.nextThread;
      Take(Triaged);
      assert batch.Some? ==> Serves(now, t, job);
    }
  }
}