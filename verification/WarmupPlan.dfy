/** Sizing of a Glacier warm-up (api/internal/restore/warmup_plan.go) and the
    time line the sizing is for. Times are hours, as reals. */
module WarmupPlan {

  const BATCH_SIZE: nat := 1000
  const THAW_HOURS: nat := 48
  const ATTEMPT_HOURS: nat := 24
  const MAX_ATTEMPTS: nat := 3
  const BATCH_WAIT_HOURS: nat := ATTEMPT_HOURS * MAX_ATTEMPTS
  const NANOS_PER_HOUR: nat := 3_600_000_000_000

  datatype Plan = Plan(dataPacks: nat, batches: nat, downloadDays: nat, timeoutHours: nat, timeoutNanos: int)

  function CeilDiv(a: nat, b: nat): (q: nat)
    requires 0 < b
    ensures (q as int - 1) * b < a <= q * b
  {
    (a + b - 1) / b
  }

  /** Go's int64 arithmetic. */
  function Wrap64(x: int): int {
    var m := x % 0x1_0000_0000_0000_0000;
    if m < 0x8000_0000_0000_0000 then m else m - 0x1_0000_0000_0000_0000
  }

  /** A figure that is not allowed to be less than one. */
  function AtLeastOne(n: int): (r: nat)
    ensures 1 <= r && n <= r && (r == n || (r == 1 && n < 1))
  {
    if n < 1 then 1 else n
  }

  /** The plan for a count of data packs. */
  function ComputeWarmupPlan(dataPacks: int, downloadGBPerDay: int): (p: Plan)
    ensures p.dataPacks == AtLeastOne(dataPacks)
  {
    var packs: nat := if dataPacks < 1 then 1 else dataPacks;
    var rate: nat := if downloadGBPerDay < 1 then 1 else downloadGBPerDay;
    var batches: nat := (packs + BATCH_SIZE - 1) / BATCH_SIZE;
    // A pack is at most half a GB, so packs / 2 GB at `rate` GB a day.
    var dl: nat := if batches > 1 then CeilDiv(packs, 2 * rate) else 0;
    var hours: nat := BATCH_WAIT_HOURS * batches + 24 * (dl + 1);
    Plan(packs, batches, dl, hours, Wrap64(Wrap64(hours) * NANOS_PER_HOUR))
  }

  function ExpiryDays(p: Plan, batch: nat): nat {
    var e := 2 * (p.batches - batch) + p.downloadDays + 1;
    if e < 1 then 1 else e
  }

  // ---- The plan as a function of its arguments --------------------------------

  lemma CeilDivMonotone(a: nat, b: nat, c: nat)
    requires 0 < c && a <= b
    ensures CeilDiv(a, c) <= CeilDiv(b, c)
  {
    var p, q := CeilDiv(a, c), CeilDiv(b, c);
    if q < p {
      MulMonotone(q, p - 1, c);
    }
  }

  lemma MulMonotone(a: int, b: int, c: nat)
    ensures a <= b ==> a * c <= b * c
  {
  }

  /** Batches are full but for the last, and every plan has one. */
  lemma BatchCount(packs: int, rate: int)
    ensures var p := ComputeWarmupPlan(packs, rate);
            && 1 <= p.batches && (p.batches - 1) * 1000 < AtLeastOne(packs) <= p.batches * 1000
  {
  }

  lemma HeadroomMonotone(few: nat, many: nat, rate: nat)
    requires few <= many && 1 <= rate
    ensures CeilDiv(few, 2 * rate) <= CeilDiv(many, 2 * rate)
    ensures (few + BATCH_SIZE - 1) / BATCH_SIZE <= (many + BATCH_SIZE - 1) / BATCH_SIZE
  {
    CeilDivMonotone(few, many, 2 * rate);
  }

  /** Planning from a larger pack count gives every batch of the smaller one at
      least its expiry, and the job at least its timeout. */
  lemma PlanMonotone(few: int, many: int, rate: int)
    requires few <= many
    ensures var p, q := ComputeWarmupPlan(few, rate), ComputeWarmupPlan(many, rate);
            && p.batches <= q.batches && p.downloadDays <= q.downloadDays && p.timeoutHours <= q.timeoutHours
            && forall k :: 1 <= k <= p.batches ==> ExpiryDays(p, k) <= ExpiryDays(q, k)
  {
    hide CeilDiv, Wrap64;
    HeadroomMonotone(if few < 1 then 1 else few, if many < 1 then 1 else many, if rate < 1 then 1 else rate);
  }

  /** The Go duration is the planned number of hours exactly when that number
      fits into 2^63 nanoseconds, about 292 years. */
  lemma TimeoutExact(packs: int, rate: int)
    requires ComputeWarmupPlan(packs, rate).timeoutHours < 0x8000_0000_0000_0000
    ensures var p := ComputeWarmupPlan(packs, rate);
            p.timeoutNanos == p.timeoutHours * NANOS_PER_HOUR <==> p.timeoutHours <= 2_562_047
  {
  }

  // ---- One restore's time line ---------------------------------------------------

  /** When each batch was submitted and had fully thawed, and how long the
      download took. The download starts when the last batch has thawed. */
  datatype Timeline = Timeline(submitted: seq<real>, thawed: seq<real>, download: real)

  /** Hours to download `packs` full packs at the configured rate. */
  function DownloadHours(packs: nat, rate: int): (h: real)
    ensures 0.0 <= h
  {
    24.0 * packs as real / (2 * AtLeastOne(rate)) as real
  }

  /** `n` sequential batches, each thawed within the Bulk SLA of its submission,
      each submitted when the one before had thawed, and a download of at most
      `packs` packs at no less than the configured rate. */
  ghost predicate InSla(t: Timeline, n: nat, packs: nat, rate: int) {
    && |t.submitted| == |t.thawed| == n && 1 <= n
    && (forall k :: 0 <= k < n ==> t.submitted[k] <= t.thawed[k] <= t.submitted[k] + THAW_HOURS as real)
    && (forall k :: 0 < k < n ==> t.submitted[k] == t.thawed[k - 1])
    && 0.0 <= t.download <= DownloadHours(packs, rate)
  }

  function End(t: Timeline): real
    requires t.thawed != []
  {
    t.thawed[|t.thawed| - 1] + t.download
  }

  lemma {:induction false} ThawGap(t: Timeline, n: nat, packs: nat, rate: int, k: nat)
    requires InSla(t, n, packs, rate) && k < n
    ensures 0.0 <= t.thawed[n - 1] - t.thawed[k] <= (THAW_HOURS * (n - 1 - k)) as real
    decreases n - k
  {
    if k < n - 1 {
      ThawGap(t, n, packs, rate, k + 1);
      assert t.submitted[k + 1] == t.thawed[k];
      assert THAW_HOURS * (n - 1 - k) == THAW_HOURS * (n - 1 - (k + 1)) + THAW_HOURS;
    }
  }

  /** A copy thawed at `at` with the given expiry is alive until the download ends. */
  predicate Survives(t: Timeline, at: real, days: int)
    requires t.thawed != []
  {
    End(t) <= at + (24 * days) as real
  }

  /** What the plan leaves in the worst case: the hours by which the last copy
      of any batch outlives the download. */
  function Slack(packs: int, rate: int): real {
    (24 * (ComputeWarmupPlan(packs, rate).downloadDays + 1)) as real - DownloadHours(AtLeastOne(packs), rate)
  }

  /** With several batches the download headroom covers the download, so at
      least a day is left and less than two. */
  lemma SlackIsADay(packs: int, rate: int)
    ensures var p := ComputeWarmupPlan(packs, rate);
            p.batches > 1 ==> 24.0 <= Slack(packs, rate) < 48.0
  {
    var p := ComputeWarmupPlan(packs, rate);
    if p.batches > 1 {
      CoverDays(AtLeastOne(packs), 2 * AtLeastOne(rate));
    }
  }

  lemma CoverDays(a: nat, b: nat)
    requires 0 < b
    ensures var d := 24.0 * a as real / b as real; var q := CeilDiv(a, b);
            d <= (24 * q) as real < d + 24.0
  {
    RatioBounds(a, b, CeilDiv(a, b));
  }

  lemma RatioBounds(a: nat, b: nat, q: nat)
    requires 0 < b && (q as int - 1) * b < a <= q * b
    ensures var d := 24.0 * a as real / b as real;
            d <= (24 * q) as real < d + 24.0
  {
    var d, r := 24.0 * a as real / b as real, b as real;
    var x, y := q as real - 1.0, q as real;
    assert d * r == 24.0 * a as real;
    RealProduct(q as int - 1, b);
    RealProduct(q, b);
    TimesDay(x, r);
    TimesDay(y, r);
    ScaleLess(24.0 * x, d, r);
    ScaleLess(24.0 * y, d, r);
  }

  lemma RealProduct(q: int, b: int)
    ensures (q * b) as real == q as real * b as real
  {
  }

  lemma TimesDay(x: real, r: real)
    ensures 24.0 * x * r == 24.0 * (x * r)
  {
  }

  lemma ScaleLess(x: real, y: real, r: real)
    ensures 0.0 < r ==> (x < y <==> x * r < y * r)
  {
  }

  /** In every in-SLA restore of any part of the planned packs, batch by batch,
      a copy that thawed `lead` hours ahead of its batch survives the download
      if `lead` is at most the plan's slack. */
  lemma CopiesSurvive(planned: int, rate: int, t: Timeline, n: nat, packs: nat, k: nat, at: real)
    requires var p := ComputeWarmupPlan(planned, rate);
             n <= p.batches && packs <= AtLeastOne(planned) && InSla(t, n, packs, rate)
    requires 1 <= k <= n
    requires t.thawed[k - 1] - at <= Slack(planned, rate)
    ensures Survives(t, at, ExpiryDays(ComputeWarmupPlan(planned, rate), k))
  {
    var p := ComputeWarmupPlan(planned, rate);
    ThawGap(t, n, packs, rate, k - 1);
    DownloadMonotone(packs, AtLeastOne(planned), rate);
    assert (24 * ExpiryDays(p, k)) as real == (THAW_HOURS * (p.batches - k)) as real
      + (24 * (p.downloadDays + 1)) as real;
    assert (THAW_HOURS * (n - k)) as real <= (THAW_HOURS * (p.batches - k)) as real;
  }

  lemma DownloadMonotone(a: nat, b: nat, rate: int)
    ensures a <= b ==> DownloadHours(a, rate) <= DownloadHours(b, rate)
  {
    var r := (2 * AtLeastOne(rate)) as real;
    var x, y := DownloadHours(a, rate), DownloadHours(b, rate);
    assert x * r == 24.0 * a as real && y * r == 24.0 * b as real;
    ScaleLess(y, x, r);
  }

  /** The slowest in-SLA restore: every batch takes the full 48 hours and the
      download runs at exactly the configured rate. */
  function Slowest(n: nat, packs: nat, rate: int): Timeline {
    Timeline(seq(n, i => (THAW_HOURS * i) as real),
             seq(n, i => (THAW_HOURS * (i + 1)) as real),
             DownloadHours(packs, rate))
  }

  lemma SlowestInSla(n: nat, packs: nat, rate: int)
    ensures 1 <= n ==> InSla(Slowest(n, packs, rate), n, packs, rate)
  {
  }

  /** A copy of batch k that thawed `lead` hours ahead of its batch outlives
      the download of every in-SLA restore of all the packs. */
  ghost predicate Protects(packs: int, rate: int, k: nat, lead: real)
    requires 1 <= k <= ComputeWarmupPlan(packs, rate).batches
  {
    var p := ComputeWarmupPlan(packs, rate);
    forall t :: InSla(t, p.batches, AtLeastOne(packs), rate) ==> Survives(t, t.thawed[k - 1] - lead, ExpiryDays(p, k))
  }

  /** Exactly which copies the plan protects: those thawed at most `Slack`
      hours ahead of their batch, whatever the batch. A copy further ahead is
      lost in the slowest in-SLA restore. */
  lemma ProtectsExact(packs: int, rate: int, k: nat, lead: real)
    requires 1 <= k <= ComputeWarmupPlan(packs, rate).batches
    ensures Protects(packs, rate, k, lead) <==> lead <= Slack(packs, rate)
  {
    var p := ComputeWarmupPlan(packs, rate);
    if lead <= Slack(packs, rate) {
      forall t | InSla(t, p.batches, AtLeastOne(packs), rate)
        ensures Survives(t, t.thawed[k - 1] - lead, ExpiryDays(p, k))
      {
        CopiesSurvive(packs, rate, t, p.batches, AtLeastOne(packs), k, t.thawed[k - 1] - lead);
      }
    } else {
      var t := Slowest(p.batches, AtLeastOne(packs), rate);
      SlowestInSla(p.batches, AtLeastOne(packs), rate);
      SlowestEnds(packs, rate, k);
      assert !Survives(t, t.thawed[k - 1] - lead, ExpiryDays(p, k));
    }
  }

  /** In the slowest restore every batch is left with exactly the plan's slack. */
  lemma SlowestEnds(packs: int, rate: int, k: nat)
    requires 1 <= k <= ComputeWarmupPlan(packs, rate).batches
    ensures var p := ComputeWarmupPlan(packs, rate); var t := Slowest(p.batches, AtLeastOne(packs), rate);
            t.thawed[k - 1] + (24 * ExpiryDays(p, k)) as real == End(t) + Slack(packs, rate)
  {
    var p := ComputeWarmupPlan(packs, rate);
    var t := Slowest(p.batches, AtLeastOne(packs), rate);
    assert t.thawed[p.batches - 1] - t.thawed[k - 1] == (THAW_HOURS * (p.batches - k)) as real;
  }

  /** For several batches: every copy of every batch lives a day past the end of
      the download, so a pack may thaw a day ahead of its batch; and the days
      are needed, since with two fewer the slowest restore loses every batch. */
  lemma SeveralBatchesSafeAndTight(packs: int, rate: int, k: nat)
    requires AtLeastOne(packs) > 1000 && 1 <= k <= ComputeWarmupPlan(packs, rate).batches
    ensures var p := ComputeWarmupPlan(packs, rate); var slowest := Slowest(p.batches, AtLeastOne(packs), rate);
            && (forall t :: InSla(t, p.batches, AtLeastOne(packs), rate) ==>
              End(t) + 24.0 <= t.thawed[k - 1] + (24 * ExpiryDays(p, k)) as real)
            && InSla(slowest, p.batches, AtLeastOne(packs), rate)
            && !Survives(slowest, slowest.thawed[k - 1], ExpiryDays(p, k) - 2)
  {
    var p := ComputeWarmupPlan(packs, rate);
    SlackIsADay(packs, rate);
    forall t | InSla(t, p.batches, AtLeastOne(packs), rate)
      ensures End(t) + 24.0 <= t.thawed[k - 1] + (24 * ExpiryDays(p, k)) as real
    {
      CopiesSurvive(packs, rate, t, p.batches, AtLeastOne(packs), k, t.thawed[k - 1] - 24.0);
    }
    SlowestInSla(p.batches, AtLeastOne(packs), rate);
    SlowestEnds(packs, rate, k);
  }

  /** A single batch gets one day and no download headroom: its copies outlive
      every in-SLA restore exactly when the configured rate moves all packs
      within a day. */
  lemma SingleBatchSafeExact(packs: int, rate: int)
    requires AtLeastOne(packs) <= 1000
    ensures var p := ComputeWarmupPlan(packs, rate);
            && p.batches == 1 && ExpiryDays(p, 1) == 1 && p.timeoutHours == 96
            && (Protects(packs, rate, 1, 0.0) <==> AtLeastOne(packs) <= 2 * AtLeastOne(rate))
  {
    SingleBatchPlan(packs, rate);
    hide ComputeWarmupPlan, ExpiryDays;
    ProtectsExact(packs, rate, 1, 0.0);
    DayRate(AtLeastOne(packs), rate);
  }

  lemma SingleBatchPlan(packs: int, rate: int)
    requires AtLeastOne(packs) <= 1000
    ensures var p := ComputeWarmupPlan(packs, rate);
            p.batches == 1 && p.downloadDays == 0 && ExpiryDays(p, 1) == 1 && p.timeoutHours == 96
  {
    hide Wrap64, CeilDiv;
    BatchCount(packs, rate);
  }

  /** `n` batches hold that many packs and all are full but the last. */
  predicate InBatches(n: nat, packs: nat) {
    (n - 1) * 1000 < packs <= n * 1000
  }

  /** Every in-SLA restore of at most the planned number of packs, in batches of
      1000, keeps every copy alive until it is downloaded. */
  ghost predicate KeepsAll(planned: int, rate: int) {
    forall t, n: nat, packs: nat, k: nat ::
      InSla(t, n, packs, rate) && InBatches(n, packs) && packs <= AtLeastOne(planned) && 1 <= k <= n ==>
        Survives(t, t.thawed[k - 1], ExpiryDays(ComputeWarmupPlan(planned, rate), k))
  }

  /** Exactly which plans keep all copies of all restores they are for: those of
      more than one batch, and of one that the rate moves within a day. */
  lemma KeepsAllExact(planned: int, rate: int)
    ensures KeepsAll(planned, rate) <==> AtLeastOne(planned) > 1000 || AtLeastOne(planned) <= 2 * AtLeastOne(rate)
  {
    var p, most := ComputeWarmupPlan(planned, rate), AtLeastOne(planned);
    BatchCount(planned, rate);
    if most > 1000 || most <= 2 * AtLeastOne(rate) {
      SlackIsADay(planned, rate);
      DayRate(most, rate);
      hide ComputeWarmupPlan, ExpiryDays, InSla, Survives;
      forall t, n: nat, packs: nat, k: nat
        | InSla(t, n, packs, rate) && InBatches(n, packs) && packs <= most && 1 <= k <= n
        ensures Survives(t, t.thawed[k - 1], ExpiryDays(p, k))
      {
        CopiesSurvive(planned, rate, t, n, packs, k, t.thawed[k - 1]);
      }
    } else {
      SingleBatchSafeExact(planned, rate);
      ProtectsExact(planned, rate, 1, 0.0);
      var t :| InSla(t, 1, most, rate) && !Survives(t, t.thawed[0] - 0.0, ExpiryDays(p, 1));
      assert InBatches(1, most) && t.thawed[0] == t.thawed[0] - 0.0;
    }
  }

  lemma DayRate(packs: nat, rate: int)
    ensures DownloadHours(packs, rate) <= 24.0 <==> packs <= 2 * AtLeastOne(rate)
  {
    var r, h := (2 * AtLeastOne(rate)) as real, DownloadHours(packs, rate);
    assert h * r == 24.0 * packs as real;
    if h <= 24.0 {
      assert h * r <= 24.0 * r;
    } else {
      assert h * r > 24.0 * r;
    }
  }

  /** At the default rate a full single batch is safe; at 100 GB a day it is lost. */
  lemma SingleBatchExamples()
    ensures KeepsAll(1000, 1080) && !KeepsAll(1000, 100)
  {
    KeepsAllExact(1000, 1080);
    KeepsAllExact(1000, 100);
  }

  // ---- The overall deadline ------------------------------------------------------

  /** Every in-SLA restore of at most the planned batches and data packs ends
      before the deadline: by 72 hours for each planned batch it did not need,
      24 hours for each it did, and the slack. The slowest one leaves no more;
      with several batches planned at least 24N + 24 hours are left for sleeps. */
  lemma DeadlineMargin(packs: int, rate: int, t: Timeline, n: nat, needed: nat)
    requires n <= ComputeWarmupPlan(packs, rate).batches && needed <= AtLeastOne(packs) && InSla(t, n, needed, rate)
    ensures var p := ComputeWarmupPlan(packs, rate); var used := End(t) - t.submitted[0];
            && used + (24 * n + 72 * (p.batches - n)) as real + Slack(packs, rate) <= p.timeoutHours as real
            && (p.batches > 1 ==> used + (24 * p.batches + 24) as real <= p.timeoutHours as real)
            && End(Slowest(p.batches, AtLeastOne(packs), rate)) + (24 * p.batches) as real + Slack(packs, rate)
               == p.timeoutHours as real
  {
    var p := ComputeWarmupPlan(packs, rate);
    ThawGap(t, n, needed, rate, 0);
    DownloadMonotone(needed, AtLeastOne(packs), rate);
    SlackIsADay(packs, rate);
    SlowestMargin(packs, rate);
    hide DownloadHours, Slowest, CeilDiv;
    assert THAW_HOURS * (n - 1) == THAW_HOURS * n - THAW_HOURS;
    assert p.timeoutHours == 72 * p.batches + 24 * (p.downloadDays + 1);
  }

  lemma SlowestMargin(packs: int, rate: int)
    ensures var p := ComputeWarmupPlan(packs, rate);
            End(Slowest(p.batches, AtLeastOne(packs), rate)) + (24 * p.batches) as real + Slack(packs, rate)
            == p.timeoutHours as real
  {
    var p := ComputeWarmupPlan(packs, rate);
    assert Slowest(p.batches, AtLeastOne(packs), rate).thawed[p.batches - 1] == (THAW_HOURS * p.batches) as real;
  }

  // ---- Without a count ---------------------------------------------------------------

  /** When counting fails the plan is that of one data pack: every batch gets a
      single day, and no headroom. A copy of batch k of a restore that really
      takes `n` batches and `packs` data packs then outlives every in-SLA restore
      exactly if its batch is the last and the rate moves all packs within a day. */
  lemma FallbackExact(n: nat, packs: nat, rate: int, k: nat)
    requires 1 <= k <= n
    ensures ExpiryDays(ComputeWarmupPlan(1, rate), k) == 1
    ensures (forall t :: InSla(t, n, packs, rate) ==>
      Survives(t, t.thawed[k - 1], ExpiryDays(ComputeWarmupPlan(1, rate), k)))
       <==> k == n && packs <= 2 * AtLeastOne(rate)
  {
    DayRate(packs, rate);
    if k == n && packs <= 2 * AtLeastOne(rate) {
      forall t | InSla(t, n, packs, rate) ensures Survives(t, t.thawed[k - 1], 1) {
      }
    } else {
      var t := Slowest(n, packs, rate);
      SlowestInSla(n, packs, rate);
      assert t.thawed[n - 1] - t.thawed[k - 1] == (THAW_HOURS * (n - k)) as real;
      assert k < n ==> (THAW_HOURS * (n - k)) as real >= THAW_HOURS as real;
      assert !Survives(t, t.thawed[k - 1], 1);
    }
  }
}
