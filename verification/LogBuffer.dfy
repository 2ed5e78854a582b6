/** The per-job log ring buffer (api/internal/engine/rustic.go:20-59) and the
    handler that streams it by polling (api/internal/server/router.go:870-910). */
module LogBuffer {

  function Min(a: nat, b: nat): (m: nat)
    ensures m <= a && m <= b && (m == a || m == b)
  {
    if a < b then a else b
  }

  /** The last `cap` lines ever written, oldest first. */
  function Tail(log: seq<string>, cap: nat): (t: seq<string>)
    ensures |t| == Min(|log|, cap)
    ensures forall i :: 0 <= i < |t| ==> t[i] == log[|log| - |t| + i]
  {
    log[|log| - Min(|log|, cap)..]
  }

  /** A nonzero multiple of `cap` is at least `cap` away from zero. */
  lemma MultipleSize(k: int, cap: nat)
    ensures k >= 1 ==> cap <= k * cap
    ensures k <= -1 ==> k * cap + cap <= 0
  {
  }

  lemma RemainderUnique(a: int, q: int, r: int, cap: nat)
    requires 0 <= r < cap && a == q * cap + r
    ensures a % cap == r
  {
    assert a == a / cap * cap + a % cap;
    assert (q - a / cap) * cap == a % cap - r;
    MultipleSize(q - a / cap, cap);
  }

  /** Positions less than a buffer length apart have different slots. */
  lemma SlotsDiffer(i: nat, j: nat, cap: nat)
    requires i < j < i + cap
    ensures i % cap != j % cap
  {
    assert j - i == (j / cap - i / cap) * cap + (j % cap - i % cap);
    MultipleSize(j / cap - i / cap, cap);
  }

  /** Reading on from the oldest slot visits the positions in order. */
  lemma SlotOf(pos: nat, i: nat, cap: nat)
    requires 1 <= cap <= pos
    ensures (pos % cap + i) % cap == (pos - cap + i) % cap
  {
    var x, q := pos % cap + i, pos / cap - 1;
    assert pos - cap + i == q * cap + x;
    RemainderUnique(pos - cap + i, q + x / cap, x % cap, cap) by {
      assert (q + x / cap) * cap == q * cap + x / cap * cap;
    }
  }

  class RingBuffer {
    const lines: array<string>
    const cap: nat
    var pos: nat
    ghost var log: seq<string>  // every line ever written

    ghost predicate Valid()
      reads this, lines
    {
      && 1 <= cap == lines.Length
      && pos == |log|
      && forall i {:trigger log[i]} :: 0 <= i < pos && pos <= i + cap ==> lines[i % cap] == log[i]
    }

    constructor (capacity: nat)
      requires 1 <= capacity
      ensures Valid() && fresh(lines) && cap == capacity && log == []
    {
      lines := new string[capacity](_ => "");
      cap, pos, log := capacity, 0, [];
    }

    method Write(line: string)
      requires Valid()
      modifies this`pos, this`log, lines
      ensures Valid() && log == old(log) + [line]
    {
      forall i | 0 <= i < pos && pos < i + cap
        ensures i % cap != pos % cap
      {
        SlotsDiffer(i, pos, cap);
      }
      lines[pos % cap] := line;
      log := log + [line];
      pos := pos + 1;
    }

    /** Exactly the last min(writes, cap) lines, in order. */
    method Lines() returns (out: seq<string>)
      requires Valid()
      ensures out == Tail(log, cap)
      ensures |out| == (if |log| < cap then |log| else cap) && out == log[|log| - |out|..]
    {
      out := [];
      var start := 0;
      if pos > cap {
        start := pos % cap;
      }
      var n := Min(pos, cap);
      ghost var first := pos - n;
      for i := 0 to n
        invariant out == log[first..first + i]
      {
        if pos > cap {
          SlotOf(pos, i, cap);
        }
        assert lines[(first + i) % cap] == log[first + i];
        out := out + [lines[(start + i) % cap]];
      }
    }
  }

  // ---- The streamer --------------------------------------------------------------

  datatype Event = Write(line: string) | Poll

  /** The log, the handler's `sent` counter, and the log positions it has sent. */
  datatype Feed = Feed(log: seq<string>, sent: nat, taken: seq<nat>)

  const IDLE := Feed([], 0, [])

  function Range(from: nat, to: nat): seq<nat>
    requires from <= to
  {
    seq(to - from, i => from + i)
  }

  /** What a poll of a buffer of the given capacity does. */
  function Polled(f: Feed, cap: nat): Feed {
    var len := Min(|f.log|, cap);
    if f.sent < len then
      Feed(f.log, len, f.taken + Range(|f.log| - len + f.sent, |f.log|))
    else
      f
  }

  function Step(f: Feed, e: Event, cap: nat): Feed {
    match e
    case Write(line) => f.(log := f.log + [line])
    case Poll => Polled(f, cap)
  }

  function Play(events: seq<Event>, cap: nat): Feed {
    if events == [] then IDLE else Step(Play(events[..|events| - 1], cap), events[|events| - 1], cap)
  }

  ghost predicate Increasing(taken: seq<nat>) {
    forall i, j :: 0 <= i < j < |taken| ==> taken[i] < taken[j]
  }

  ghost predicate Ordered(f: Feed, cap: nat) {
    && Increasing(f.taken)
    && |f.taken| == f.sent <= Min(|f.log|, cap)
    && (f.taken != [] ==> f.taken[f.sent - 1] < |f.log|)
    // Until the buffer has wrapped for the handler nothing is skipped.
    && (f.sent < cap ==> f.taken == Range(0, f.sent))
  }

  lemma {:induction false} PlayOrdered(events: seq<Event>, cap: nat)
    ensures Ordered(Play(events, cap), cap)
  {
    if events == [] {
      assert Range(0, 0) == [];
    } else {
      var front := events[..|events| - 1];
      PlayOrdered(front, cap);
      if events[|events| - 1].Poll? {
      }
    }
  }

  /** Under every interleaving of writes and polls the stream is a subsequence
      of the log, in order and without repeats, of at most `cap` lines. The next
      poll adds the lines the buffer shows from the number sent so far on, and
      makes it the whole log exactly when no more than `cap` lines were written.
      A longer log therefore stops streaming for good at line `cap`. */
  lemma StreamExact(events: seq<Event>, cap: nat)
    ensures var f := Play(events, cap);
            && Increasing(f.taken) && |f.taken| <= cap
            && (forall i :: 0 <= i < |f.taken| ==> f.taken[i] < |f.log|)
            && |Polled(f, cap).taken| == Min(|f.log|, cap) && f.taken <= Polled(f, cap).taken
            && (forall i :: |f.taken| <= i < Min(|f.log|, cap) ==>
                  Polled(f, cap).taken[i] == |f.log| - Min(|f.log|, cap) + i)
            && (Polled(f, cap).taken == Range(0, |f.log|) <==> |f.log| <= cap)
  {
    var f := Play(events, cap);
    PlayOrdered(events, cap);
    var g := Polled(f, cap);
    assert g.sent == Min(|f.log|, cap);
    if |f.log| == cap == g.sent {
      AllTaken(g.taken, cap);
    }
  }

  /** As many increasing positions as there are lines are all positions. */
  lemma AllTaken(taken: seq<nat>, n: nat)
    requires Increasing(taken) && |taken| == n && (n > 0 ==> taken[n - 1] < n)
    ensures taken == Range(0, n)
  {
    forall i | 0 <= i < n ensures taken[i] == i {
      AtLeastIndex(taken, i);
      AtMostIndex(taken, i);
    }
  }

  lemma {:induction false} AtLeastIndex(taken: seq<nat>, i: nat)
    requires Increasing(taken) && i < |taken|
    ensures i <= taken[i]
  {
    if i > 0 {
      AtLeastIndex(taken, i - 1);
    }
  }

  lemma {:induction false} AtMostIndex(taken: seq<nat>, i: nat)
    requires Increasing(taken) && i < |taken| && taken[|taken| - 1] < |taken|
    ensures taken[i] <= i
    decreases |taken| - i
  {
    if i < |taken| - 1 {
      AtMostIndex(taken, i + 1);
    }
  }

  /** The lines at the given positions. */
  function Pick(log: seq<string>, taken: seq<nat>): (r: seq<string>)
    requires forall i :: 0 <= i < |taken| ==> taken[i] < |log|
    ensures |r| == |taken| && forall i :: 0 <= i < |r| ==> r[i] == log[taken[i]]
  {
    seq(|taken|, i requires 0 <= i < |taken| => log[taken[i]])
  }

  /** One open event stream on one job's buffer. */
  class Stream {
    const buf: RingBuffer
    var sent: nat
    var out: seq<string>
    ghost var taken: seq<nat>

    ghost predicate Valid()
      reads this, buf, buf.lines
    {
      && buf.Valid()
      && sent <= |buf.log|
      && (forall i :: 0 <= i < |taken| ==> taken[i] < |buf.log|)
      && out == Pick(buf.log, taken)
    }

    constructor (buf: RingBuffer)
      requires buf.Valid()
      ensures Valid() && this.buf == buf && sent == 0 && taken == []
    {
      this.buf := buf;
      sent, out, taken := 0, [], [];
    }

    /** One tick: sends the lines from `sent` on. The stream is closed on
        'completed' and 'failed' only, so a cancelled job keeps it open. */
    method Tick(status: string) returns (closed: bool)
      requires Valid()
      modifies this
      ensures Valid()
      ensures Feed(buf.log, sent, taken) == Polled(Feed(buf.log, old(sent), old(taken)), buf.cap)
      ensures var shown := Tail(buf.log, buf.cap);
        out == old(out) + if old(sent) < |shown| then shown[old(sent)..] else []
      ensures closed <==> status == "completed" || status == "failed"
    {
      hide Pick, Tail, Range, Min;
      assert taken + [] == taken && out + [] == out;
      var lines := buf.Lines();
      Send(lines);
      closed := status == "completed" || status == "failed";
    }

    method Send(lines: seq<string>)
      requires Valid() && lines == Tail(buf.log, buf.cap)
      modifies this
      ensures Valid()
      ensures sent == if old(sent) < |lines| then |lines| else old(sent)
      ensures var first := |buf.log| - |lines|;
        taken == old(taken) + if old(sent) < |lines| then Range(first + old(sent), |buf.log|) else []
      ensures out == old(out) + if old(sent) < |lines| then lines[old(sent)..] else []
    {
      hide Tail;
      var from := sent;
      ghost var first := |buf.log| - |lines|;
      assert Range(first + from, first + from) == [];
      while sent < |lines|
        invariant from <= sent && (from <= |lines| ==> sent <= |lines|) && (from > |lines| ==> sent == from)
        invariant taken == old(taken) + Range(first + from, first + sent)
        invariant forall i :: 0 <= i < |taken| ==> taken[i] < |buf.log|
        invariant out == Pick(buf.log, taken)
        invariant out == old(out) + if from < |lines| then lines[from..sent] else []
      {
        assert lines[sent] == buf.log[first + sent];
        RangeSnoc(first + from, first + sent);
        out := out + [lines[sent]];
        taken := taken + [first + sent];
        sent := sent + 1;
      }
    }
  }

  lemma RangeSnoc(from: nat, to: nat)
    ensures from <= to ==> Range(from, to + 1) == Range(from, to) + [to]
  {
  }
}
