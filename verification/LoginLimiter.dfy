/** The login rate limiter (api/internal/auth/ratelimit.go:69-107) and the order
    in which handleLogin uses it (api/internal/server/router.go:150-189).
    Stored times are whole seconds; formatted times compare like numbers. */
module LoginLimiter {

  const MAX_FAILED: nat := 5
  const WINDOW: nat := 900
  const LOCKOUT: nat := 900
  const KEEP: nat := 86400

  datatype Attempt = Attempt(ip: string, at: int, success: bool)

  predicate Failed(a: Attempt, ip: string) {
    a.ip == ip && !a.success
  }

  /** SELECT COUNT(*) ... WHERE ip=? AND attempted_at>? AND success=0 */
  function Failures(rows: seq<Attempt>, ip: string, after: int): nat {
    if rows == [] then 0
    else
      var a := rows[|rows| - 1];
      Failures(rows[..|rows| - 1], ip, after) + (if Failed(a, ip) && a.at > after then 1 else 0)
  }

  /** The rows the count is of. */
  function Counted(rows: seq<Attempt>, ip: string, after: int): set<nat> {
    set i | 0 <= i < |rows| && rows[i].ip == ip && !rows[i].success && rows[i].at > after
  }

  lemma {:induction false} FailuresExact(rows: seq<Attempt>, ip: string, after: int)
    ensures Failures(rows, ip, after) == |Counted(rows, ip, after)|
  {
    if rows == [] {
      assert Counted(rows, ip, after) == {};
    } else {
      var n := |rows| - 1;
      FailuresExact(rows[..n], ip, after);
      var was := Counted(rows[..n], ip, after);
      if Failed(rows[n], ip) && rows[n].at > after {
        assert Counted(rows, ip, after) == was + {n} && n !in was;
      } else {
        assert Counted(rows, ip, after) == was;
      }
    }
  }

  predicate LockedOut(rows: seq<Attempt>, ip: string, now: int) {
    Failures(rows, ip, now - WINDOW) >= MAX_FAILED
  }

  /** The most recent failure of an IP; meaningful when it has one. */
  function LastFailure(rows: seq<Attempt>, ip: string): (t: int)
    ensures forall a :: a in rows && Failed(a, ip) ==> a.at <= t
    ensures (exists a :: a in rows && Failed(a, ip)) ==> exists a :: a in rows && Failed(a, ip) && a.at == t
  {
    if rows == [] then 0
    else
      var front, a := rows[..|rows| - 1], rows[|rows| - 1];
      var t := LastFailure(front, ip);
      assert forall b :: b in rows <==> b in front || b == a;
      if Failed(a, ip) && (a.at > t || forall b :: b in front ==> !Failed(b, ip)) then a.at else t
  }

  /** DELETE ... WHERE attempted_at < cutoff */
  function Cleanup(rows: seq<Attempt>, cutoff: int): seq<Attempt> {
    if rows == [] then []
    else
      var front, a := Cleanup(rows[..|rows| - 1], cutoff), rows[|rows| - 1];
      if a.at < cutoff then front else front + [a]
  }

  /** Cleaning up changes no count, whatever is stored, exactly when it spares
      everything the count looks at. */
  lemma CleanupExact(cutoff: int, after: int)
    ensures (forall rows, ip :: Failures(Cleanup(rows, cutoff), ip, after) == Failures(rows, ip, after))
       <==> cutoff <= after + 1
  {
    if cutoff <= after + 1 {
      forall rows, ip ensures Failures(Cleanup(rows, cutoff), ip, after) == Failures(rows, ip, after) {
        CleanupSpares(rows, cutoff, ip, after);
      }
    } else {
      var a := Attempt("", after + 1, false);
      assert [a][..0] == [];
      assert Cleanup([a], cutoff) == [];
      assert Failures(Cleanup([a], cutoff), "", after) != Failures([a], "", after);
    }
  }

  lemma {:induction false} CleanupSpares(rows: seq<Attempt>, cutoff: int, ip: string, after: int)
    ensures cutoff <= after + 1 ==> Failures(Cleanup(rows, cutoff), ip, after) == Failures(rows, ip, after)
  {
    if rows != [] {
      var front, a := rows[..|rows| - 1], rows[|rows| - 1];
      CleanupSpares(front, cutoff, ip, after);
      if a.at >= cutoff {
        assert (Cleanup(front, cutoff) + [a])[..|Cleanup(front, cutoff)|] == Cleanup(front, cutoff);
      }
    }
  }

  /** The cutoff is written in local time, so it is `offset` seconds late. No
      later answer changes as long as the zone is less than a day minus the
      window ahead of UTC; UTC+14 is 50400 seconds. */
  lemma CleanupChangesNoAnswer(rows: seq<Attempt>, ip: string, cleaned: int, offset: int, now: int)
    requires cleaned <= now && offset <= KEEP - WINDOW + 1
    ensures LockedOut(Cleanup(rows, cleaned + offset - KEEP), ip, now) == LockedOut(rows, ip, now)
  {
    CleanupSpares(rows, cleaned + offset - KEEP, ip, now - WINDOW);
  }

  class RateLimiter {
    var rows: seq<Attempt>

    constructor ()
      ensures rows == []
    {
      rows := [];
    }

    method IsLockedOut(ip: string, now: real) returns (locked: bool, remaining: real)
      ensures locked <==> LockedOut(rows, ip, now.Floor)
      ensures locked <==> |Counted(rows, ip, now.Floor - 900)| >= 5
      ensures !locked ==> remaining == 0.0
      ensures locked ==> now + remaining >= (LastFailure(rows, ip) + LOCKOUT) as real && remaining >= 0.0
      ensures locked && remaining > 0.0 ==> now + remaining == (LastFailure(rows, ip) + LOCKOUT) as real
    {
      var cutoff := now.Floor - WINDOW;
      FailuresExact(rows, ip, cutoff);
      var count := Failures(rows, ip, cutoff);
      if count < MAX_FAILED {
        return false, 0.0;
      }
      locked := true;
      remaining := LOCKOUT as real - (now - LastFailure(rows, ip) as real);
      if remaining < 0.0 {
        remaining := 0.0;
      }
    }

    method RecordAttempt(ip: string, success: bool, now: real, offset: int)
      modifies this
      ensures rows == Cleanup(old(rows) + [Attempt(ip, now.Floor, success)], now.Floor + offset - KEEP)
    {
      rows := rows + [Attempt(ip, now.Floor, success)];
      rows := Cleanup(rows, now.Floor + offset - KEEP);
    }
  }

  // ---- handleLogin under any interleaving -------------------------------------------

  /** The table, everything ever recorded, the clock, and the requests that
      passed the check and have not recorded an attempt yet. */
  datatype State = State(rows: seq<Attempt>, log: seq<Attempt>, now: int, inflight: map<nat, string>)

  datatype Event =
    | Pass(seconds: nat)
    | Arrive(id: nat, ip: string)
    | Malformed(id: nat)                              // body does not decode: nothing recorded
    | Finish(id: nat, success: bool, offset: int)     // password checked, attempt recorded
    | Restart                                         // open requests die, the table survives

  const START := State([], [], 0, map[])

  predicate Enabled(s: State, e: Event) {
    match e
    case Pass(_) => true
    case Arrive(id, _) => id !in s.inflight
    case Malformed(id) => id in s.inflight
    case Finish(id, _, offset) => id in s.inflight && offset <= KEEP - WINDOW + 1
    case Restart => true
  }

  function Apply(s: State, e: Event): State
    requires Enabled(s, e)
  {
    match e
    case Pass(d) => s.(now := s.now + d)
    case Arrive(id, ip) => if LockedOut(s.rows, ip, s.now) then s else s.(inflight := s.inflight[id := ip])
    case Malformed(id) => s.(inflight := s.inflight - {id})
    case Finish(id, success, offset) =>
      var a := Attempt(s.inflight[id], s.now, success);
      s.(rows := Cleanup(s.rows + [a], s.now + offset - KEEP), log := s.log + [a], inflight := s.inflight - {id})
    case Restart => s.(inflight := map[])
  }

  /** Requests of one IP between check and record. */
  function OpenIds(inflight: map<nat, string>, ip: string): set<nat> {
    set id | id in inflight && inflight[id] == ip
  }

  function Open(s: State, ip: string): nat {
    |OpenIds(s.inflight, ip)|
  }

  /** A run in which at most `c` requests of the IP are ever open at once. */
  ghost predicate Run(s: State, es: seq<Event>, ip: string, c: nat)
    decreases |es|
  {
    Open(s, ip) <= c && (es == [] || (Enabled(s, es[0]) && Run(Apply(s, es[0]), es[1..], ip, c)))
  }

  function Final(s: State, es: seq<Event>, ip: string, c: nat): State
    requires Run(s, es, ip, c)
    decreases |es|
  {
    if es == [] then s else Final(Apply(s, es[0]), es[1..], ip, c)
  }

  /** Failures recorded in the window of 900 seconds that starts at `x`. */
  function InWindow(log: seq<Attempt>, ip: string, x: int): nat {
    if log == [] then 0
    else
      var a := log[|log| - 1];
      InWindow(log[..|log| - 1], ip, x) + (if Failed(a, ip) && x <= a.at < x + WINDOW then 1 else 0)
  }

  /** The failures of the address that were recorded in that window. */
  function Recorded(log: seq<Attempt>, ip: string, x: int): set<nat> {
    set i | 0 <= i < |log| && log[i].ip == ip && !log[i].success && x <= log[i].at < x + 900
  }

  lemma {:induction false} WindowExact(log: seq<Attempt>, ip: string, x: int)
    ensures InWindow(log, ip, x) == |Recorded(log, ip, x)|
  {
    if log == [] {
      assert Recorded(log, ip, x) == {};
    } else {
      var n := |log| - 1;
      WindowExact(log[..n], ip, x);
      var was := Recorded(log[..n], ip, x);
      if Failed(log[n], ip) && x <= log[n].at < x + WINDOW {
        assert Recorded(log, ip, x) == was + {n} && n !in was;
      } else {
        assert Recorded(log, ip, x) == was;
      }
    }
  }

  lemma {:induction false} WindowIsCounted(log: seq<Attempt>, ip: string, x: int, after: int)
    ensures after < x ==> InWindow(log, ip, x) <= Failures(log, ip, after)
  {
    if log != [] {
      WindowIsCounted(log[..|log| - 1], ip, x, after);
    }
  }

  /** The table answers like the full log. */
  ghost predicate Faithful(s: State) {
    forall ip, after :: s.now - WINDOW <= after ==> Failures(s.rows, ip, after) == Failures(s.log, ip, after)
  }

  ghost predicate Bounded(s: State, ip: string, c: nat) {
    forall x :: InWindow(s.log, ip, x) <= MAX_FAILED - 1 + c
             && (InWindow(s.log, ip, x) >= MAX_FAILED && s.now < x + WINDOW
                 ==> InWindow(s.log, ip, x) + Open(s, ip) <= MAX_FAILED - 1 + c)
  }

  lemma FinishFaithful(s: State, id: nat, success: bool, offset: int)
    requires Faithful(s) && Enabled(s, Finish(id, success, offset))
    ensures Faithful(Apply(s, Finish(id, success, offset)))
  {
    var t := Apply(s, Finish(id, success, offset));
    var a := Attempt(s.inflight[id], s.now, success);
    assert (s.rows + [a])[..|s.rows|] == s.rows && (s.log + [a])[..|s.log|] == s.log;
    forall ip, after | t.now - WINDOW <= after ensures Failures(t.rows, ip, after) == Failures(t.log, ip, after) {
      CleanupSpares(s.rows + [a], s.now + offset - KEEP, ip, after);
    }
  }

  lemma OpenRemoved(inflight: map<nat, string>, id: nat, ip: string)
    requires id in inflight
    ensures |OpenIds(inflight - {id}, ip)| == |OpenIds(inflight, ip)| - (if inflight[id] == ip then 1 else 0)
  {
    assert OpenIds(inflight - {id}, ip) == OpenIds(inflight, ip) - {id};
  }

  lemma OpenAdded(inflight: map<nat, string>, id: nat, ip: string, other: string)
    requires id !in inflight
    ensures |OpenIds(inflight[id := other], ip)| == |OpenIds(inflight, ip)| + (if other == ip then 1 else 0)
  {
    assert OpenIds(inflight[id := other], ip) == OpenIds(inflight, ip) + (if other == ip then {id} else {});
  }

  lemma StepBounded(s: State, e: Event, ip: string, c: nat)
    requires Faithful(s) && Bounded(s, ip, c) && Open(s, ip) <= c && Enabled(s, e)
    ensures Faithful(Apply(s, e)) && Bounded(Apply(s, e), ip, c)
  {
    match e
    case Pass(_) =>
    case Restart =>
      assert OpenIds(map[], ip) == {};
    case Malformed(id) =>
      OpenRemoved(s.inflight, id, ip);
    case Arrive(id, other) =>
      if !LockedOut(s.rows, other, s.now) {
        OpenAdded(s.inflight, id, ip, other);
        if other == ip {
          forall x | s.now < x + WINDOW ensures InWindow(s.log, ip, x) < MAX_FAILED {
            WindowIsCounted(s.log, ip, x, s.now - WINDOW);
          }
        }
      }
    case Finish(id, success, offset) =>
      FinishFaithful(s, id, success, offset);
      OpenRemoved(s.inflight, id, ip);
      assert (s.log + [Attempt(s.inflight[id], s.now, success)])[..|s.log|] == s.log;
  }

  lemma {:induction false} RunBounded(s: State, es: seq<Event>, ip: string, c: nat)
    requires Run(s, es, ip, c) && Faithful(s) && Bounded(s, ip, c)
    ensures Faithful(Final(s, es, ip, c)) && Bounded(Final(s, es, ip, c), ip, c)
    decreases |es|
  {
    if es != [] {
      StepBounded(s, es[0], ip, c);
      RunBounded(Apply(s, es[0]), es[1..], ip, c);
    }
  }

  /** However requests interleave, with at most `c` of an IP open at once no
      900-second window holds more than 4 + c of its failures: with requests
      handled one at a time, at most 5. */
  lemma WindowBound(es: seq<Event>, ip: string, c: nat, x: int)
    requires Run(START, es, ip, c)
    ensures |Recorded(Final(START, es, ip, c).log, ip, x)| <= 4 + c
  {
    RunBounded(START, es, ip, c);
    WindowExact(Final(START, es, ip, c).log, ip, x);
  }

  // ---- The bound is reached ---------------------------------------------------------------

  /** At time 0 the address has `n` failures, all just recorded, and these requests are open. */
  ghost predicate Stage(s: State, ip: string, n: nat, open: set<nat>) {
    s.now == 0 && s.log == Burst(ip, n) && s.rows == s.log && s.inflight == Requests(ip, open)
  }

  function Requests(ip: string, open: set<nat>): map<nat, string> {
    map id | id in open :: ip
  }

  function Burst(ip: string, n: nat): seq<Attempt> {
    if n == 0 then [] else Burst(ip, n - 1) + [Attempt(ip, 0, false)]
  }

  lemma {:induction false} BurstCounts(ip: string, n: nat)
    ensures Failures(Burst(ip, n), ip, -900) == InWindow(Burst(ip, n), ip, 0) == n
    ensures Cleanup(Burst(ip, n), -86400) == Burst(ip, n)
  {
    if n > 0 {
      BurstCounts(ip, n - 1);
      assert Burst(ip, n)[..|Burst(ip, n)| - 1] == Burst(ip, n - 1);
    }
  }

  lemma {:induction false} RunSnoc(s: State, es: seq<Event>, ip: string, c: nat, e: Event)
    requires Run(s, es, ip, c) && Enabled(Final(s, es, ip, c), e) && Open(Apply(Final(s, es, ip, c), e), ip) <= c
    ensures Run(s, es + [e], ip, c) && Final(s, es + [e], ip, c) == Apply(Final(s, es, ip, c), e)
    decreases |es|
  {
    hide Apply, Enabled;
    if es == [] {
      assert ([] + [e])[0] == e && ([] + [e])[1..] == [];
    } else {
      assert (es + [e])[1..] == es[1..] + [e] && (es + [e])[0] == es[0];
      RunSnoc(Apply(s, es[0]), es[1..], ip, c, e);
    }
  }

  ghost predicate Staged(es: seq<Event>, ip: string, c: nat, n: nat, open: set<nat>) {
    Run(START, es, ip, c) && Stage(Final(START, es, ip, c), ip, n, open)
  }

  /** One more request gets in while fewer than five failures are recorded. */
  lemma LetsIn(es: seq<Event>, ip: string, c: nat, n: nat, open: set<nat>, id: nat) returns (more: seq<Event>)
    requires Staged(es, ip, c, n, open) && n <= 4 && id !in open && |open| < c
    ensures Staged(more, ip, c, n, open + {id})
  {
    var s := Final(START, es, ip, c);
    BurstCounts(ip, n);
    OpenAdded(s.inflight, id, ip, ip);
    assert OpenIds(s.inflight, ip) == open;
    assert s.inflight[id := ip] == Requests(ip, open + {id});
    RunSnoc(START, es, ip, c, Arrive(id, ip));
    more := es + [Arrive(id, ip)];
  }

  lemma Fails(es: seq<Event>, ip: string, c: nat, n: nat, open: set<nat>, id: nat) returns (more: seq<Event>)
    requires Staged(es, ip, c, n, open) && id in open && |open| <= c
    ensures Staged(more, ip, c, n + 1, open - {id})
  {
    var s := Final(START, es, ip, c);
    BurstCounts(ip, n + 1);
    OpenRemoved(s.inflight, id, ip);
    assert OpenIds(s.inflight, ip) == open;
    assert s.inflight - {id} == Requests(ip, open - {id});
    RunSnoc(START, es, ip, c, Finish(id, false, 0));
    more := es + [Finish(id, false, 0)];
  }

  lemma {:induction false} OneByOne(ip: string, c: nat, n: nat) returns (es: seq<Event>)
    requires 1 <= c && n <= 4
    ensures Staged(es, ip, c, n, {})
  {
    if n == 0 {
      es := [];
      assert OpenIds(START.inflight, ip) == {} && START.inflight == Requests(ip, {});
    } else {
      es := OneByOne(ip, c, n - 1);
      es := LetsIn(es, ip, c, n - 1, {}, 0);
      assert {} + {0} == {0} && {0} - {0} == {};
      es := Fails(es, ip, c, n - 1, {0}, 0);
    }
  }

  function Ids(k: nat): (ids: set<nat>)
    ensures |ids| == k && forall i :: i in ids <==> 0 <= i < k
  {
    if k == 0 then {} else Ids(k - 1) + {k - 1}
  }

  lemma {:induction false} AllAtOnce(ip: string, c: nat, k: nat) returns (es: seq<Event>)
    requires 1 <= c && k <= c
    ensures Staged(es, ip, c, 4, Ids(k))
  {
    if k == 0 {
      es := OneByOne(ip, c, 4);
    } else {
      es := AllAtOnce(ip, c, k - 1);
      es := LetsIn(es, ip, c, 4, Ids(k - 1), k - 1);
    }
  }

  lemma {:induction false} AllFail(ip: string, c: nat, k: nat) returns (es: seq<Event>)
    requires 1 <= c && k <= c
    ensures Staged(es, ip, c, 4 + c - k, Ids(k))
    decreases c - k
  {
    if k == c {
      es := AllAtOnce(ip, c, c);
    } else {
      es := AllFail(ip, c, k + 1);
      es := Fails(es, ip, c, 4 + c - (k + 1), Ids(k + 1), k);
      assert Ids(k + 1) - {k} == Ids(k);
    }
  }

  /** For every `c` some run puts that many failures into one window: after four
      failures the next `c` requests all pass the check before one is recorded. */
  lemma WindowReached(ip: string, c: nat) returns (es: seq<Event>)
    requires 1 <= c
    ensures Run(START, es, ip, c) && |Recorded(Final(START, es, ip, c).log, ip, 0)| == 4 + c
  {
    es := AllFail(ip, c, 0);
    BurstCounts(ip, 4 + c);
    WindowExact(Burst(ip, 4 + c), ip, 0);
  }

  // ---- A lockout ends -------------------------------------------------------------

  /** The IP is locked out throughout the run. */
  ghost predicate LockedThroughout(s: State, es: seq<Event>, ip: string, c: nat)
    requires Run(s, es, ip, c)
    decreases |es|
  {
    LockedOut(s.rows, ip, s.now) && (es == [] || LockedThroughout(Apply(s, es[0]), es[1..], ip, c))
  }

  lemma {:induction false} LastBounds(rows: seq<Attempt>, ip: string, after: int)
    requires forall a :: a in rows && Failed(a, ip) ==> a.at <= after
    ensures Failures(rows, ip, after) == 0
  {
    if rows != [] {
      LastBounds(rows[..|rows| - 1], ip, after);
    }
  }

  /** While locked out and with no request open, an IP records nothing. */
  lemma {:induction false} LockedRecordsNothing(s: State, es: seq<Event>, ip: string, c: nat, last: int)
    requires Run(s, es, ip, c) && LockedThroughout(s, es, ip, c) && Open(s, ip) == 0
    requires forall a :: a in s.rows && Failed(a, ip) ==> a.at <= last
    ensures forall a :: a in Final(s, es, ip, c).rows && Failed(a, ip) ==> a.at <= last
    ensures LockedOut(Final(s, es, ip, c).rows, ip, Final(s, es, ip, c).now)
    decreases |es|
  {
    if es != [] {
      var t := Apply(s, es[0]);
      match es[0] {
        case Pass(_) =>
        case Restart => assert OpenIds(map[], ip) == {};
        case Malformed(id) => OpenRemoved(s.inflight, id, ip);
        case Arrive(id, other) =>
          if !LockedOut(s.rows, other, s.now) { OpenAdded(s.inflight, id, ip, other); }
        case Finish(id, success, offset) =>
          OpenRemoved(s.inflight, id, ip);
          var a := Attempt(s.inflight[id], s.now, success);
          CleanupMembers(s.rows + [a], s.now + offset - KEEP);
      }
      LockedRecordsNothing(t, es[1..], ip, c, last);
    }
  }

  /** Exactly the rows from the cutoff on are kept, as often as they were there. */
  lemma {:induction false} CleanupMembers(rows: seq<Attempt>, cutoff: int)
    ensures forall a :: a in Cleanup(rows, cutoff) <==> a in rows && a.at >= cutoff
    ensures forall a: Attempt :: a.at >= cutoff ==> multiset(Cleanup(rows, cutoff))[a] == multiset(rows)[a]
  {
    if rows != [] {
      var front, last := rows[..|rows| - 1], rows[|rows| - 1];
      CleanupMembers(front, cutoff);
      assert rows == front + [last];
    }
  }

  /** Whatever a locked-out IP sends, its lockout has ended at some moment no
      later than the remaining time it was told. */
  lemma LockoutEnds(s: State, es: seq<Event>, ip: string, c: nat)
    requires Run(s, es, ip, c) && Open(s, ip) == 0
    requires Final(s, es, ip, c).now >= LastFailure(s.rows, ip) + LOCKOUT
    ensures !LockedThroughout(s, es, ip, c)
  {
    if LockedThroughout(s, es, ip, c) {
      var last := LastFailure(s.rows, ip);
      LockedRecordsNothing(s, es, ip, c, last);
      LastBounds(Final(s, es, ip, c).rows, ip, Final(s, es, ip, c).now - WINDOW);
    }
  }
}
