/** The glaciervault-warmup script (docker/glaciervault-warmup.sh): which batch
    an invocation is, how often the tool is retried, and when the completion
    sentinel is printed. */
module WarmupWrapper {
  import opened Wrappers
  import opened WarmupPlan

  // ---- The retry loop -------------------------------------------------------------

  /** How one run of warmup-s3-archives ends. */
  datatype Outcome = Thawed | TimedOut | ToolError(status: Failure)
  type Failure = n: nat | n > 0 witness 1

  /** Exit status after the attempts from `attempt` on; 1 when it gives up. */
  function ExitStatus(tool: nat -> Outcome, attempt: nat, maxAttempts: nat): nat
    decreases maxAttempts + 1 - attempt
  {
    if maxAttempts < attempt then 1
    else match tool(attempt)
      case Thawed => 0
      case ToolError(s) => s
      case TimedOut => ExitStatus(tool, attempt + 1, maxAttempts)
  }

  /** The first attempt from `from` on that does not time out, one past the last
      if all do. */
  function Settling(tool: nat -> Outcome, from: nat, maxAttempts: nat): (k: nat)
    requires from <= maxAttempts + 1
    ensures from <= k <= maxAttempts + 1
    ensures forall i :: from <= i < k ==> tool(i) == TimedOut
    ensures k <= maxAttempts ==> tool(k) != TimedOut
    decreases maxAttempts + 1 - from
  {
    if from > maxAttempts || tool(from) != TimedOut then from else Settling(tool, from + 1, maxAttempts)
  }

  /** The exit status is that of the first attempt that does not time out: 0
      exactly if the tool has seen everything thaw, an error's own status, and 1
      if all attempts time out. */
  lemma {:induction false} ExitExact(tool: nat -> Outcome, attempt: nat, maxAttempts: nat)
    requires attempt <= maxAttempts + 1
    ensures var k := Settling(tool, attempt, maxAttempts);
      ExitStatus(tool, attempt, maxAttempts) ==
        if k > maxAttempts then 1 else if tool(k) == Thawed then 0 else tool(k).status
    decreases maxAttempts + 1 - attempt
  {
    if attempt <= maxAttempts && tool(attempt) == TimedOut {
      ExitExact(tool, attempt + 1, maxAttempts);
    }
  }

  /** The tool against a batch that thaws `thaw` hours after the first
      submission: each attempt watches `budget` hours, and the script sleeps in
      between. Re-submitting does not restart a thaw. */
  function Watching(thaw: real, budget: real, sleep: real): nat -> Outcome {
    (attempt: nat) =>
      if thaw <= (attempt - 1) as real * (budget + sleep) + budget then Thawed else TimedOut
  }

  lemma {:induction false} WatchUntil(thaw: real, budget: real, sleep: real, attempt: nat, maxAttempts: nat)
    requires 0.0 <= budget && 0.0 <= sleep && 1 <= attempt <= maxAttempts
    ensures ExitStatus(Watching(thaw, budget, sleep), attempt, maxAttempts) == 0
       <==> thaw <= (maxAttempts - 1) as real * (budget + sleep) + budget
    decreases maxAttempts - attempt
  {
    if attempt < maxAttempts {
      WatchUntil(thaw, budget, sleep, attempt + 1, maxAttempts);
    }
  }

  /** A batch whose tool never errs is given up on exactly when it thaws after
      the last watch; three watches of at least a day cover the 48-hour SLA. */
  lemma NeverGivesUpInSla(p: Plan, batch: nat, thaw: real, sleep: real)
    requires 0.0 <= sleep
    ensures var budget := (24 * ExpiryDays(p, batch)) as real;
            && (ExitStatus(Watching(thaw, budget, sleep), 1, MAX_ATTEMPTS) == 0
                <==> thaw <= 3.0 * budget + 2.0 * sleep)
            && (thaw <= THAW_HOURS as real ==> ExitStatus(Watching(thaw, budget, sleep), 1, MAX_ATTEMPTS) == 0)
  {
    WatchUntil(thaw, (24 * ExpiryDays(p, batch)) as real, sleep, 1, MAX_ATTEMPTS);
  }

  // ---- The batch counter -------------------------------------------------------------

  /** The key set an invocation warms; its hash stands for it. */
  type Keys = seq<string>

  datatype CounterFile = Missing | Counter(batch: Option<nat>, hash: Keys)

  /** Number of maximal runs of equal key sets. */
  function Runs(history: seq<Keys>): (n: nat)
    ensures n == 0 <==> history == []
    ensures n <= |history|
  {
    if history == [] then 0
    else
      var front := history[..|history| - 1];
      if front != [] && front[|front| - 1] == history[|history| - 1] then Runs(front) else Runs(front) + 1
  }

  /** One restore's working directory. */
  class Wrapper {
    const plan: Plan
    var counter: CounterFile
    var expirationInDays: nat
    var sentinels: nat
    ghost var history: seq<Keys>

    ghost predicate Valid()
      reads this
    {
      counter == if history == [] then Missing else Counter(Some(Runs(history)), history[|history| - 1])
    }

    constructor (plan: Plan)
      ensures Valid() && this.plan == plan && history == [] && sentinels == 0
    {
      this.plan := plan;
      counter, expirationInDays, sentinels, history := Missing, 1, 0, [];
    }

    /** The number of this invocation is the number of maximal runs so far, so
        an immediate repeat keeps its batch number and expiry. */
    method NextBatch(args: Keys) returns (batch: nat)
      requires Valid()
      modifies this
      ensures Valid() && history == old(history) + [args]
      ensures batch == Runs(history)
      ensures sentinels == old(sentinels) && expirationInDays == old(expirationInDays)
    {
      assert (history + [args])[..|history|] == history;
      var b := 1;
      if counter.Counter? {
        var prev := match counter.batch case Some(n) => n case None => 0;
        b := if counter.hash == args then prev else prev + 1;
      }
      batch := AtLeastOne(b);
      counter := Counter(Some(batch), args);
      history := history + [args];
    }

    /** One invocation by rustic. */
    method Invoke(args: Keys, tool: nat -> Outcome, maxAttempts: nat) returns (status: nat)
      requires Valid()
      modifies this
      ensures Valid() && history == old(history) + [args]
      ensures expirationInDays == ExpiryDays(plan, Runs(history))
      ensures status == ExitStatus(tool, 1, maxAttempts)
      ensures sentinels == old(sentinels) + if status == 0 && plan.batches <= Runs(history) then 1 else 0
    {
      var batch := NextBatch(args);
      expirationInDays := ExpiryDays(plan, batch);
      var attempt := 1;
      while attempt <= maxAttempts
        invariant Valid() && history == old(history) + [args]
        invariant expirationInDays == ExpiryDays(plan, batch) && sentinels == old(sentinels)
        invariant ExitStatus(tool, attempt, maxAttempts) == ExitStatus(tool, 1, maxAttempts)
        decreases maxAttempts + 1 - attempt
      {
        match tool(attempt) {
          case Thawed =>
            if plan.batches <= batch {
              sentinels := sentinels + 1;
            }
            return 0;
          case TimedOut =>
            attempt := attempt + 1;
          case ToolError(s) =>
            return s;
        }
      }
      status := 1;
    }
  }

  // ---- Whole restores ----------------------------------------------------------------

  /** Two neighbours have different numbers exactly when their keys differ, and
      then the later number is one more. */
  lemma RunsStep(history: seq<Keys>, i: nat)
    requires 0 < i < |history|
    ensures Runs(history[..i + 1]) == Runs(history[..i]) + if history[i] == history[i - 1] then 0 else 1
  {
    assert history[..i + 1][..i] == history[..i];
  }

  datatype Invocation = Invocation(keys: Keys, status: nat)

  function KeysOf(run: seq<Invocation>): (ks: seq<Keys>)
    ensures |ks| == |run| && forall i :: 0 <= i < |run| ==> ks[i] == run[i].keys
  {
    seq(|run|, i requires 0 <= i < |run| => run[i].keys)
  }

  /** The batch number that invocation `i` got. */
  function BatchOf(run: seq<Invocation>, i: nat): nat
    requires i < |run|
  {
    Runs(KeysOf(run)[..i + 1])
  }

  /** rustic turns to other keys only after its command succeeded. */
  ghost predicate Blocking(run: seq<Invocation>) {
    forall i :: 0 < i < |run| && run[i].keys != run[i - 1].keys ==> run[i - 1].status == 0
  }

  ghost predicate Succeeded(run: seq<Invocation>, batch: nat) {
    exists i :: 0 <= i < |run| && BatchOf(run, i) == batch && run[i].status == 0
  }

  ghost predicate SentinelAt(p: Plan, run: seq<Invocation>, i: nat)
    requires i < |run|
  {
    run[i].status == 0 && p.batches <= BatchOf(run, i)
  }

  /** Whatever batch is running, all earlier ones have succeeded. */
  lemma {:induction false} EarlierSucceeded(run: seq<Invocation>, i: nat, batch: nat)
    requires Blocking(run) && i < |run| && 1 <= batch < BatchOf(run, i)
    ensures exists j :: 0 <= j < i && BatchOf(run, j) == batch && run[j].status == 0
  {
    var ks := KeysOf(run);
    assert ks[..1][..0] == [];
    if i > 0 {
      RunsStep(ks, i);
      assert ks[..i - 1 + 1] == ks[..i];
      if batch < BatchOf(run, i - 1) {
        EarlierSucceeded(run, i - 1, batch);
      }
    }
  }

  /** The sentinel is printed exactly when every planned batch has succeeded,
      so never before all of them have, and never at all if the restore turns
      out to need fewer batches than planned. */
  lemma SentinelExact(p: Plan, run: seq<Invocation>)
    requires Blocking(run) && 1 <= p.batches
    ensures (exists i :: 0 <= i < |run| && SentinelAt(p, run, i))
       <==> forall batch :: 1 <= batch <= p.batches ==> Succeeded(run, batch)
    ensures Runs(KeysOf(run)) < p.batches ==> !exists i :: 0 <= i < |run| && SentinelAt(p, run, i)
  {
    if i :| 0 <= i < |run| && SentinelAt(p, run, i) {
      forall batch | 1 <= batch <= p.batches ensures Succeeded(run, batch) {
        if batch < BatchOf(run, i) {
          EarlierSucceeded(run, i, batch);
        }
      }
      RunsGrow(KeysOf(run), i + 1, |run|);
      assert KeysOf(run)[..|run|] == KeysOf(run);
    }
    if forall batch :: 1 <= batch <= p.batches ==> Succeeded(run, batch) {
      assert Succeeded(run, p.batches);
      var i :| 0 <= i < |run| && BatchOf(run, i) == p.batches && run[i].status == 0;
      assert SentinelAt(p, run, i);
    }
  }

  lemma {:induction false} RunsGrow(history: seq<Keys>, i: nat, j: nat)
    requires i <= j <= |history|
    ensures Runs(history[..i]) <= Runs(history[..j])
    decreases j - i
  {
    if i < j {
      RunsGrow(history, i, j - 1);
      assert history[..j][..j - 1] == history[..j - 1];
    }
  }

  /** With distinct neighbouring key sets, repeated any number of times in a
      row, the k-th set gets number k and the planner's expiry for batch k. */
  lemma {:induction false} RepeatsKeepNumbers(sets: seq<Keys>, times: seq<nat>)
    requires |sets| == |times| && forall i :: 0 <= i < |times| ==> 1 <= times[i]
    requires forall i :: 0 < i < |sets| ==> sets[i] != sets[i - 1]
    ensures Runs(Repeated(sets, times)) == |sets|
    ensures sets != [] ==>
      Repeated(sets, times) != [] && Repeated(sets, times)[|Repeated(sets, times)| - 1] == sets[|sets| - 1]
  {
    if sets != [] {
      var n := |sets| - 1;
      RepeatsKeepNumbers(sets[..n], times[..n]);
      OneMoreRun(Repeated(sets[..n], times[..n]), sets[n], times[n]);
    }
  }

  function Repeated(sets: seq<Keys>, times: seq<nat>): seq<Keys>
    requires |sets| == |times|
  {
    if sets == [] then []
    else
      var n := |sets| - 1;
      Repeated(sets[..n], times[..n]) + seq(times[n], _ => sets[n])
  }

  lemma {:induction false} OneMoreRun(history: seq<Keys>, keys: Keys, n: nat)
    requires 1 <= n
    requires history != [] ==> history[|history| - 1] != keys
    ensures Runs(history + seq(n, _ => keys)) == Runs(history) + 1
  {
    var all := history + seq(n, _ => keys);
    assert all[..|all| - 1] == history + seq(n - 1, _ => keys);
    if n == 1 {
      assert all[..|all| - 1] == history;
    } else {
      OneMoreRun(history, keys, n - 1);
      assert all[|all| - 2] == keys;
    }
  }
}
