/** restore_jobs rows, the statements that change them, and the hook that reads
    the restore process's output line by line
    (api/internal/restore/resume.go:16-80, 129-147; restore.go:434-437). */
module RestoreHook {
  import opened Wrappers

  datatype Status =
    | Queued
    | WarmupRequested
    | RetrievalInProgress
    | RetrievalComplete
    | Restoring
    | Completed
    | Failed

  predicate NonTerminal(s: Status) {
    s != Completed && s != Failed
  }

  datatype Row = Row(
    snapshot: Option<nat>,     // nulled when the snapshot is deleted
    pathsText: string,
    destination: string,
    status: Status,
    batch: Option<string>,
    notified: bool,            // warmup_notified_at is set
    stamped: bool              // completed_at is set
  )

  // ---- Classifying a line ------------------------------------------------------------

  const SENTINEL: string := "glaciervault-warmup: warmup complete"

  predicate ContainsAt(s: string, sub: string, i: nat) {
    i + |sub| <= |s| && s[i..i + |sub|] == sub
  }

  predicate Contains(s: string, sub: string) {
    exists i :: 0 <= i <= |s| && ContainsAt(s, sub, i)
  }

  function Lower(s: string): (r: string)
    ensures |r| == |s|
  {
    seq(|s|, i requires 0 <= i < |s| => if 'A' <= s[i] <= 'Z' then s[i] - 'A' + 'a' else s[i])
  }

  predicate IsHex(c: char) {
    '0' <= c <= '9' || 'a' <= c <= 'f' || 'A' <= c <= 'F'
  }

  predicate IsWord(c: char) {
    '0' <= c <= '9' || 'a' <= c <= 'z' || 'A' <= c <= 'Z' || c == '_'
  }

  /** Groups of 8, 4, 4, 4 and 12 hex digits. */
  predicate IsUuid(s: string) {
    |s| == 36 && forall k :: 0 <= k < |s| ==>
      if k == 8 || k == 13 || k == 18 || k == 23 then s[k] == '-' else IsHex(s[k])
  }

  /** A UUID between word boundaries. */
  predicate UuidAt(line: string, i: nat) {
    && i + 36 <= |line|
    && (i > 0 ==> !IsWord(line[i - 1]))
    && (i + 36 < |line| ==> !IsWord(line[i + 36]))
    && IsUuid(line[i..i + 36])
  }

  const HEX: string := "0123456789abcdefABCDEF"
  const SMALL: string := "abcdefghijklmnopqrstuvwxyz"
  const CAPITAL: string := "ABCDEFGHIJKLMNOPQRSTUVWXYZ"

  lemma HexExact(c: char)
    ensures IsHex(c) <==> c in HEX
  {
    if IsHex(c) {
      var k := if c <= '9' then c as int - '0' as int
               else if c <= 'F' then c as int - 'A' as int + 16 else c as int - 'a' as int + 10;
      assert HEX[k] == c;
    }
  }

  lemma SmallExact(c: char)
    ensures 'a' <= c <= 'z' <==> c in SMALL
  {
    if 'a' <= c <= 'z' {
      assert SMALL[c as int - 'a' as int] == c;
    }
  }

  lemma CapitalExact(c: char)
    ensures 'A' <= c <= 'Z' <==> c in CAPITAL
  {
    if 'A' <= c <= 'Z' {
      assert CAPITAL[c as int - 'A' as int] == c;
    }
  }

  lemma WordExact(c: char)
    ensures IsWord(c) <==> c in SMALL || c in CAPITAL || c in HEX || c == '_'
  {
    hide SMALL, CAPITAL, HEX;
    SmallExact(c);
    CapitalExact(c);
    HexExact(c);
  }

  /** `n` hex digits from position `from` on. */
  predicate HexGroup(line: string, from: nat, n: nat) {
    from + n <= |line| && forall k :: from <= k < from + n ==> line[k] in HEX
  }

  /** Not a letter, digit or underscore at this position. */
  predicate Boundary(line: string, i: int) {
    0 <= i < |line| ==> line[i] !in SMALL && line[i] !in CAPITAL && line[i] !in HEX && line[i] != '_'
  }

  /** The pattern, written out: five groups of hex digits with dashes in between,
      and no word going on at either end. */
  lemma UuidAtExact(line: string, i: nat)
    ensures UuidAt(line, i) <==>
      && HexGroup(line, i, 8) && HexGroup(line, i + 9, 4) && HexGroup(line, i + 14, 4) && HexGroup(line, i + 19, 4)
      && HexGroup(line, i + 24, 12)
      && line[i + 8] == '-' && line[i + 13] == '-' && line[i + 18] == '-' && line[i + 23] == '-'
      && Boundary(line, i - 1) && Boundary(line, i + 36)
  {
    hide IsHex, IsWord, HEX, SMALL, CAPITAL;
    forall c: char ensures IsHex(c) <==> c in HEX {
      HexExact(c);
    }
    forall c: char ensures IsWord(c) <==> c in SMALL || c in CAPITAL || c in HEX || c == '_' {
      WordExact(c);
    }
    if i + 36 <= |line| {
      var u := line[i..i + 36];
      assert forall k :: i <= k < i + 36 ==> line[k] == u[k - i];
    }
  }

  function FindUuid(line: string, from: nat): (at: Option<nat>)
    ensures at.Some? ==> from <= at.value && UuidAt(line, at.value)
    ensures at.Some? ==> forall i :: from <= i < at.value ==> !UuidAt(line, i)
    ensures at.None? ==> forall i :: from <= i ==> !UuidAt(line, i)
    decreases |line| - from
  {
    if UuidAt(line, from) then Some(from)
    else if from + 36 < |line| then FindUuid(line, from + 1)
    else None
  }

  /** The line mentions a job in whatever case. */
  predicate MentionsJob(line: string) {
    exists i :: 0 <= i <= |line| && JobAt(line, i)
  }

  predicate JobAt(s: string, i: nat) {
    i + 3 <= |s| && s[i] in {'j', 'J'} && s[i + 1] in {'o', 'O'} && s[i + 2] in {'b', 'B'}
  }

  lemma JobAtExact(line: string, i: nat)
    ensures ContainsAt(Lower(line), "job", i) <==> JobAt(line, i)
  {
    if i + 3 <= |line| {
      var low := Lower(line)[i..i + 3];
      assert low == [low[0], low[1], low[2]];
    }
  }

  lemma MentionsExact(line: string)
    ensures Contains(Lower(line), "job") <==> MentionsJob(line)
  {
    hide ContainsAt, JobAt;
    forall i | 0 <= i <= |line| ensures ContainsAt(Lower(line), "job", i) <==> JobAt(line, i) {
      JobAtExact(line, i);
    }
  }

  /** batchJobIDFromLine: the leftmost UUID of a line that mentions a job. */
  function BatchJobID(line: string): (id: string)
    ensures id != "" <==> MentionsJob(line) && exists i: nat :: UuidAt(line, i)
    ensures id != "" ==>
      exists i: nat :: UuidAt(line, i) && id == line[i..i + 36] && forall k :: 0 <= k < i ==> !UuidAt(line, k)
  {
    MentionsExact(line);
    if !Contains(Lower(line), "job") then ""
    else
      match FindUuid(line, 0)
      case None => ""
      case Some(i) => line[i..i + 36]
  }

  /** What a line says; a reported batch job has an ID. */
  datatype Saying = Sentinel | BatchJob(id: string) | Other
  type Kind = k: Saying | k.BatchJob? ==> k.id != "" witness Other

  function Classify(line: string): Kind {
    if Contains(line, SENTINEL) then Sentinel
    else if BatchJobID(line) == "" then Other
    else BatchJob(BatchJobID(line))
  }

  /** The sentinel comes first, whatever else the line holds; of the other lines
      those that report a job give the leftmost UUID. */
  lemma ClassifyExact(line: string)
    ensures Classify(line).Sentinel? <==> Contains(line, SENTINEL)
    ensures Classify(line).BatchJob? <==>
      !Contains(line, SENTINEL) && MentionsJob(line) && exists i: nat :: UuidAt(line, i)
    ensures Classify(line).BatchJob? ==> Classify(line).id == BatchJobID(line)
  {
  }

  // ---- The statements on one row -------------------------------------------------------

  function WithStatus(row: Row, status: Status, written: bool): (r: Row)
    ensures r.(status := row.status) == row
  {
    if written then row.(status := status) else row
  }

  /** UPDATE ... WHERE id=? AND batch_job_id IS NULL */
  function WithBatch(row: Row, id: string, written: bool): (r: Row)
    ensures r.(status := row.status, batch := row.batch) == row
    ensures row.batch.Some? ==> r == row
  {
    if written && row.batch.None? then row.(batch := Some(id), status := RetrievalInProgress) else row
  }

  // ---- The hook ------------------------------------------------------------------------

  /** A line, and whether the statement it causes goes through: the context it
      is issued under may have expired. The notification claim uses another. */
  datatype Seen = Seen(kind: Kind, written: bool)

  /** The row, the captured batch job ID and the notifications sent. */
  datatype HookState = HookState(row: Row, id: string, notices: seq<string>)

  function OnLine(h: HookState, l: Seen): HookState {
    match l.kind
    case Sentinel =>
      var row := WithStatus(h.row, RetrievalComplete, l.written);
      if row.notified then h.(row := row)
      else h.(row := row.(notified := true), notices := h.notices + [h.id])
    case BatchJob(id) =>
      h.(row := WithBatch(h.row, id, l.written), id := if h.id == "" then id else h.id)
    case Other => h
  }

  /** After the first `n` lines. */
  function After(h: HookState, ls: seq<Seen>, n: nat): HookState
    requires n <= |ls|
  {
    if n == 0 then h else OnLine(After(h, ls, n - 1), ls[n - 1])
  }

  /** The lines of an output as the hook takes them. */
  function Sees(lines: seq<string>, written: seq<bool>): (ls: seq<Seen>)
    requires |lines| == |written|
    ensures |ls| == |lines|
  {
    seq(|lines|, i requires 0 <= i < |lines| => Seen(Classify(lines[i]), written[i]))
  }

  class JobTable {
    var rows: map<nat, Row>

    constructor ()
      ensures rows == map[]
    {
      rows := map[];
    }

    method SetStatus(id: nat, status: Status, written: bool)
      modifies this
      ensures rows ==
        if id in old(rows) && written then old(rows)[id := old(rows)[id].(status := status)] else old(rows)
      ensures id in old(rows) ==> rows == old(rows)[id := WithStatus(old(rows)[id], status, written)]
    {
      if written && id in rows {
        rows := rows[id := rows[id].(status := status)];
      } else if id in rows {
        assert rows[id := rows[id]] == rows;
      }
    }

    method Stamp(id: nat, written: bool)
      modifies this
      ensures rows == if id in old(rows) && written then old(rows)[id := old(rows)[id].(stamped := true)] else old(rows)
    {
      if written && id in rows {
        rows := rows[id := rows[id].(stamped := true)];
      }
    }

    /** UPDATE ... SET batch_job_id=NULL WHERE id=? */
    method ClearBatch(id: nat)
      modifies this
      ensures rows == if id in old(rows) then old(rows)[id := old(rows)[id].(batch := None)] else old(rows)
    {
      if id in rows {
        rows := rows[id := rows[id].(batch := None)];
      }
    }

    method RecordBatch(id: nat, batch: string, written: bool) returns (affected: nat)
      modifies this
      ensures rows == if affected == 0 || id !in old(rows) then old(rows)
        else old(rows)[id := old(rows)[id].(batch := Some(batch), status := RetrievalInProgress)]
      ensures id in old(rows) ==> rows == old(rows)[id := WithBatch(old(rows)[id], batch, written)]
      ensures affected == if written && id in old(rows) && old(rows)[id].batch.None? then 1 else 0
    {
      affected := 0;
      if written && id in rows && rows[id].batch.None? {
        rows := rows[id := rows[id].(batch := Some(batch), status := RetrievalInProgress)];
        affected := 1;
      } else if id in rows {
        assert rows[id := rows[id]] == rows;
      }
    }

    /** UPDATE ... SET warmup_notified_at=? WHERE id=? AND warmup_notified_at IS NULL */
    method ClaimNotice(id: nat) returns (affected: nat)
      modifies this
      ensures rows == if id in old(rows) then old(rows)[id := old(rows)[id].(notified := true)] else old(rows)
      ensures affected == if id in old(rows) && !old(rows)[id].notified then 1 else 0
    {
      affected := 0;
      if id in rows && !rows[id].notified {
        rows := rows[id := rows[id].(notified := true)];
        affected := 1;
      } else if id in rows {
        assert rows[id := rows[id].(notified := true)] == rows;
      }
    }
  }

  /** The closure returned by warmupLineHook. */
  class LineHook {
    const table: JobTable
    const jobId: nat
    var batchJobID: string
    var notices: seq<string>

    constructor (table: JobTable, jobId: nat)
      ensures this.table == table && this.jobId == jobId && batchJobID == "" && notices == []
    {
      this.table, this.jobId, batchJobID, notices := table, jobId, "", [];
    }

    ghost function State(): HookState
      requires jobId in table.rows
      reads this, table
    {
      HookState(table.rows[jobId], batchJobID, notices)
    }

    method NotifyWarmupOnce()
      requires jobId in table.rows
      modifies table, this`notices
      ensures table.rows == old(table.rows)[jobId := old(table.rows[jobId]).(notified := true)]
      ensures notices == old(notices) + if old(table.rows[jobId].notified) then [] else [batchJobID]
    {
      var n := table.ClaimNotice(jobId);
      if n == 0 {
        return;
      }
      notices := notices + [batchJobID];
    }

    method Call(line: string, written: bool)
      requires jobId in table.rows
      modifies table, this
      ensures jobId in table.rows && State() == OnLine(old(State()), Seen(Classify(line), written))
      ensures table.rows == old(table.rows)[jobId := table.rows[jobId]]
    {
      if Contains(line, SENTINEL) {
        table.SetStatus(jobId, RetrievalComplete, written);
        NotifyWarmupOnce();
        return;
      }
      var id := BatchJobID(line);
      if id == "" {
        assert table.rows == table.rows[jobId := table.rows[jobId]];
        return;
      }
      if batchJobID == "" {
        batchJobID := id;
      }
      var n := table.RecordBatch(jobId, id, written);
    }

    /** The engine's loop over the output of one restore process
        (api/internal/engine/rustic.go:175-189). */
    method Attempt(lines: seq<string>, written: seq<bool>)
      requires jobId in table.rows && |lines| == |written|
      modifies table, this
      ensures jobId in table.rows && State() == After(old(State()), Sees(lines, written), |lines|)
      ensures table.rows == old(table.rows)[jobId := table.rows[jobId]]
    {
      hide Classify, Contains, OnLine;
      assert table.rows == table.rows[jobId := table.rows[jobId]];
      for i := 0 to |lines|
        invariant jobId in table.rows && State() == After(old(State()), Sees(lines, written), i)
        invariant table.rows == old(table.rows)[jobId := table.rows[jobId]]
      {
        Call(lines[i], written[i]);
      }
    }
  }

  // ---- What a stream of lines does to a cleared row ------------------------------------

  predicate ReportsJob(l: Seen) {
    l.kind.BatchJob?
  }

  /** The first line that reports a batch job, |ls| if there is none. */
  function FirstReport(ls: seq<Seen>, from: nat): (i: nat)
    requires from <= |ls|
    ensures from <= i <= |ls| && (i < |ls| ==> ReportsJob(ls[i]))
    ensures forall k :: from <= k < i ==> !ReportsJob(ls[k])
    decreases |ls| - from
  {
    if from == |ls| || ReportsJob(ls[from]) then from else FirstReport(ls, from + 1)
  }

  /** The first such line whose statement goes through. */
  function FirstRecord(ls: seq<Seen>, from: nat): (i: nat)
    requires from <= |ls|
    ensures from <= i <= |ls| && (i < |ls| ==> ReportsJob(ls[i]) && ls[i].written)
    ensures forall k :: from <= k < i ==> !(ReportsJob(ls[k]) && ls[k].written)
    decreases |ls| - from
  {
    if from == |ls| || (ReportsJob(ls[from]) && ls[from].written) then from else FirstRecord(ls, from + 1)
  }

  /** Nothing reported yet. */
  predicate Blank(h: HookState) {
    h.row.batch.None? && h.id == ""
  }

  predicate Fresh(h: HookState) {
    Blank(h) && h.row.status == WarmupRequested
  }

  /** The captured ID is that of the first report, the stored one that of the
      first recorded report. */
  lemma {:induction false} IdsAfter(h: HookState, ls: seq<Seen>, n: nat)
    requires Blank(h) && n <= |ls|
    ensures After(h, ls, n).id == var i := FirstReport(ls, 0); if i < n then ls[i].kind.id else ""
    ensures var i := FirstRecord(ls, 0);
      After(h, ls, n).row.batch == if i < n then Some(ls[i].kind.id) else None
  {
    if n > 0 {
      IdsAfter(h, ls, n - 1);
    }
  }

  predicate IdsAgree(h: HookState) {
    h.row.batch == if h.id == "" then None else Some(h.id)
  }

  /** The captured and the stored ID are equal throughout exactly when the first
      report, if any, is recorded. */
  lemma IdsAgreeExact(h: HookState, ls: seq<Seen>)
    requires Blank(h)
    ensures (forall n :: 0 <= n <= |ls| ==> IdsAgree(After(h, ls, n)))
       <==> var i := FirstReport(ls, 0); i < |ls| ==> ls[i].written
  {
    var i := FirstReport(ls, 0);
    if i < |ls| && !ls[i].written {
      IdsAfter(h, ls, i + 1);
      assert !IdsAgree(After(h, ls, i + 1));
    } else {
      forall n | 0 <= n <= |ls| ensures IdsAgree(After(h, ls, n)) {
        IdsAfter(h, ls, n);
      }
    }
  }

  function Rank(s: Status): nat {
    match s
    case Queued => 0
    case WarmupRequested => 1
    case RetrievalInProgress => 2
    case RetrievalComplete => 3
    case Restoring => 4
    case Completed => 5
    case Failed => 5
  }

  predicate Completes(l: Seen) {
    l.kind.Sentinel? && l.written
  }

  /** A sentinel went through among the first `n` lines, after line `from` if that
      is one of them. */
  predicate CompletedSince(ls: seq<Seen>, from: nat, n: nat)
    requires n <= |ls|
  {
    exists k :: 0 <= k < n && Completes(ls[k]) && (from < k || n <= from)
  }

  /** The status after any number of lines: retrieval is complete exactly if a
      sentinel went through since the first recorded report, or at all without
      one; else it is in progress from that report on, and untouched before. */
  lemma {:induction false} StatusExact(h: HookState, ls: seq<Seen>, n: nat)
    requires Blank(h) && n <= |ls|
    ensures var i := FirstRecord(ls, 0);
      After(h, ls, n).row.status ==
        if CompletedSince(ls, i, n) then RetrievalComplete
        else if i < n then RetrievalInProgress
        else h.row.status
  {
    if n > 0 {
      StatusExact(h, ls, n - 1);
      IdsAfter(h, ls, n - 1);
    }
  }

  /** Once an ID is stored it stays, and the status only moves forward, whatever
      lines follow and whichever statements are lost. */
  lemma {:induction false} StoredForGood(h: HookState, ls: seq<Seen>, n: nat, m: nat)
    requires Fresh(h) && n <= m <= |ls| && After(h, ls, n).row.batch.Some?
    ensures After(h, ls, m).row.batch == After(h, ls, n).row.batch
    ensures Rank(After(h, ls, n).row.status) <= Rank(After(h, ls, m).row.status) <= Rank(RetrievalComplete)
  {
    StatusExact(h, ls, n);
    IdsAfter(h, ls, n);
    if n < m {
      StoredForGood(h, ls, n, m - 1);
      StatusExact(h, ls, m);
      IdsAfter(h, ls, m);
    }
  }

  ghost predicate NeverBackward(h: HookState, ls: seq<Seen>) {
    forall n, m :: 0 <= n <= m <= |ls| ==> Rank(After(h, ls, n).row.status) <= Rank(After(h, ls, m).row.status)
  }

  /** The status of an attempt never moves backward exactly when no sentinel
      goes through before the first recorded report. */
  lemma ForwardExact(h: HookState, ls: seq<Seen>)
    requires Fresh(h)
    ensures NeverBackward(h, ls)
       <==> var i := FirstRecord(ls, 0); i == |ls| || forall k :: 0 <= k < i ==> !Completes(ls[k])
  {
    var i := FirstRecord(ls, 0);
    if i < |ls| && exists k :: 0 <= k < i && Completes(ls[k]) {
      StatusExact(h, ls, i);
      StatusExact(h, ls, i + 1);
      assert After(h, ls, i + 1).row.status == RetrievalInProgress;
      assert Rank(After(h, ls, i).row.status) > Rank(After(h, ls, i + 1).row.status);
    } else {
      forall n, m | 0 <= n <= m <= |ls| ensures Rank(After(h, ls, n).row.status) <= Rank(After(h, ls, m).row.status) {
        StatusExact(h, ls, n);
        StatusExact(h, ls, m);
        if n > i {
          IdsAfter(h, ls, n);
          StoredForGood(h, ls, n, m);
        }
      }
    }
  }

  /** The first sentinel, |ls| if there is none. */
  function FirstSentinel(ls: seq<Seen>, from: nat): (i: nat)
    requires from <= |ls|
    ensures from <= i <= |ls| && (i < |ls| ==> ls[i].kind.Sentinel?)
    ensures forall k :: from <= k < i ==> !ls[k].kind.Sentinel?
    decreases |ls| - from
  {
    if from == |ls| || ls[from].kind.Sentinel? then from else FirstSentinel(ls, from + 1)
  }

  /** One attempt sends one notification if a sentinel comes and none was sent
      before, whatever statements are lost: with the ID of the first report
      before that sentinel. Nothing else is sent. */
  lemma {:induction false} OneNotice(h: HookState, ls: seq<Seen>, n: nat)
    requires Blank(h) && h.notices == [] && n <= |ls|
    ensures var i, k := FirstReport(ls, 0), FirstSentinel(ls, 0);
      After(h, ls, n).notices ==
        if n <= k || h.row.notified then [] else [if i < k then ls[i].kind.id else ""]
    ensures After(h, ls, n).row.notified <==> h.row.notified || FirstSentinel(ls, 0) < n
  {
    if n > 0 {
      OneNotice(h, ls, n - 1);
      IdsAfter(h, ls, n - 1);
    }
  }

  /** The columns no line touches. */
  lemma {:induction false} OthersStay(h: HookState, ls: seq<Seen>, n: nat)
    requires n <= |ls|
    ensures var r := After(h, ls, n).row;
      r == h.row.(status := r.status, batch := r.batch, notified := r.notified)
  {
    if n > 0 {
      OthersStay(h, ls, n - 1);
    }
  }
}
