/** Strings as SQLite and Go see them: the BINARY collation order, the byte
    length of the UTF-8 encoding, and slash trimming. */
module Text {

  /** The largest Unicode scalar value, written `char(1114111)` in the SQL. */
  const MAX_CHAR: char := '\U{10FFFF}'

  /** SQLite's BINARY order on text, by characters. */
  predicate Less(a: string, b: string) {
    b != "" && (a == "" || a[0] < b[0] || (a[0] == b[0] && Less(a[1..], b[1..])))
  }

  lemma {:induction false} LessIrreflexive(a: string)
    ensures !Less(a, a)
  {
    if a != "" {
      LessIrreflexive(a[1..]);
    }
  }

  lemma {:induction false} LessTotal(a: string, b: string)
    ensures a == b || Less(a, b) || Less(b, a)
  {
    if a != "" && b != "" {
      LessTotal(a[1..], b[1..]);
      assert a == [a[0]] + a[1..] && b == [b[0]] + b[1..];
    }
  }

  lemma {:induction false} LessTransitive(a: string, b: string, c: string)
    requires Less(a, b) && Less(b, c)
    ensures Less(a, c)
  {
    if a != "" && a[0] == b[0] == c[0] {
      LessTransitive(a[1..], b[1..], c[1..]);
    }
  }

  /** The order is that of the first difference, and a proper prefix comes first. */
  lemma {:induction false} LessExact(a: string, b: string)
    ensures Less(a, b) <==>
      exists i :: 0 <= i <= |a| && i < |b| && a[..i] == b[..i] && (i == |a| || a[i] < b[i])
  {
    if a != "" && b != "" {
      LessExact(a[1..], b[1..]);
      forall i | 0 < i <= |a| && i < |b|
        ensures a[..i] == b[..i] <==> a[0] == b[0] && a[1..][..i - 1] == b[1..][..i - 1]
      {
        assert a[..i] == [a[0]] + a[1..][..i - 1] && b[..i] == [b[0]] + b[1..][..i - 1];
      }
      var x, y := a[1..], b[1..];
      if i :| 0 <= i <= |x| && i < |y| && x[..i] == y[..i] && (i == |x| || x[i] < y[i]) {
        if a[0] == b[0] {
          assert a[..i + 1] == b[..i + 1];
        }
      }
      if i :| 0 <= i <= |a| && i < |b| && a[..i] == b[..i] && (i == |a| || a[i] < b[i]) {
        if i > 0 {
          assert a[1..][..i - 1] == b[1..][..i - 1];
        }
      }
      assert a[0] < b[0] ==> a[..0] == b[..0];
    } else if b != "" {
      assert a[..0] == b[..0];
    }
  }

  /** Bytes of one character in UTF-8 (section 3 of RFC 3629). */
  function Utf8Width(c: char): (n: nat)
    ensures 1 <= n <= 4
    ensures n == 1 <==> c as int < 0x80
  {
    if c as int < 0x80 then 1
    else if c as int < 0x800 then 2
    else if c as int < 0x1_0000 then 3
    else 4
  }

  /** Go's len(s) on a string. */
  function Utf8Len(s: string): (n: nat)
    ensures |s| <= n
  {
    if s == "" then 0 else Utf8Width(s[0]) + Utf8Len(s[1..])
  }

  // ---- What SQLite compares: bytes ---------------------------------------------------------

  /** The UTF-8 encoding of one character (section 3 of RFC 3629). */
  function Utf8(c: char): seq<nat> {
    var n := c as int;
    if n < 0x80 then [n]
    else if n < 0x800 then [0xC0 + n / 64, 0x80 + n % 64]
    else if n < 0x1_0000 then [0xE0 + n / 64 / 64, 0x80 + n / 64 % 64, 0x80 + n % 64]
    else [0xF0 + n / 64 / 64 / 64, 0x80 + n / 64 / 64 % 64, 0x80 + n / 64 % 64, 0x80 + n % 64]
  }

  function Encoded(s: string): seq<nat> {
    if s == "" then [] else Utf8(s[0]) + Encoded(s[1..])
  }

  /** memcmp with the shorter one first. */
  predicate BytesLess(a: seq<nat>, b: seq<nat>) {
    b != [] && (a == [] || a[0] < b[0] || (a[0] == b[0] && BytesLess(a[1..], b[1..])))
  }

  lemma {:induction false} CommonPrefix(p: seq<nat>, a: seq<nat>, b: seq<nat>)
    ensures BytesLess(p + a, p + b) <==> BytesLess(a, b)
  {
    if p == [] {
      assert p + a == a && p + b == b;
    } else {
      assert (p + a)[1..] == p[1..] + a && (p + b)[1..] == p[1..] + b;
      CommonPrefix(p[1..], a, b);
    }
  }

  /** Where the first byte that differs decides. */
  lemma FirstByte(p: seq<nat>, x: nat, a: seq<nat>, y: nat, b: seq<nat>)
    requires x < y
    ensures BytesLess(p + ([x] + a), p + ([y] + b)) && !BytesLess(p + ([y] + b), p + ([x] + a))
  {
    CommonPrefix(p, [x] + a, [y] + b);
    CommonPrefix(p, [y] + b, [x] + a);
  }

  lemma DigitsOrder(n: nat, m: nat)
    ensures n < m ==> n / 64 < m / 64 || (n / 64 == m / 64 && n % 64 < m % 64)
  {
  }

  /** A larger character has the larger byte at the first difference. */
  lemma FirstDifference(c: char, d: char) returns (i: nat)
    requires c < d
    ensures i < |Utf8(c)| && i < |Utf8(d)| && Utf8(c)[..i] == Utf8(d)[..i] && Utf8(c)[i] < Utf8(d)[i]
  {
    if Utf8(c)[0] < Utf8(d)[0] {
      i := 0;
    } else {
      SameWidth(c, d);
      var n, m := c as int, d as int;
      DigitsOrder(n, m);
      DigitsOrder(n / 64, m / 64);
      DigitsOrder(n / 64 / 64, m / 64 / 64);
      var k := |Utf8(c)|;
      i := if n / 64 == m / 64 then k - 1 else if n / 64 / 64 == m / 64 / 64 then k - 2 else k - 3;
    }
  }

  /** A longer encoding starts with a larger byte. */
  lemma SameWidth(c: char, d: char)
    requires c < d
    ensures Utf8(c)[0] < Utf8(d)[0] || |Utf8(c)| == |Utf8(d)|
  {
    LeadByte(c);
    LeadByte(d);
    hide Utf8;
  }

  lemma LeadByte(c: char)
    ensures var u := Utf8(c);
      && |u| == Utf8Width(c)
      && (|u| == 1 ==> u[0] < 0x80) && (|u| == 2 ==> 0xC0 <= u[0] < 0xE0)
      && (|u| == 3 ==> 0xE0 <= u[0] < 0xF0) && (|u| == 4 ==> 0xF0 <= u[0])
  {
  }

  lemma CharOrder(c: char, d: char, a: seq<nat>, b: seq<nat>)
    requires c < d
    ensures BytesLess(Utf8(c) + a, Utf8(d) + b) && !BytesLess(Utf8(d) + b, Utf8(c) + a)
  {
    hide Utf8, BytesLess;
    var x, y := Utf8(c), Utf8(d);
    var i := FirstDifference(c, d);
    FirstByte(x[..i], x[i], x[i + 1..] + a, y[i], y[i + 1..] + b);
    assert x + a == x[..i] + ([x[i]] + (x[i + 1..] + a));
    assert y + b == y[..i] + ([y[i]] + (y[i + 1..] + b));
  }

  /** Comparing characters gives the same answer as comparing encoded bytes, and
      the byte length is that of the encoding. */
  lemma {:induction false} BytesExact(a: string, b: string)
    ensures BytesLess(Encoded(a), Encoded(b)) <==> Less(a, b)
    ensures |Encoded(a)| == Utf8Len(a)
  {
    if a != "" {
      if b == "" {
        BytesExact(a[1..], b);
      } else {
        BytesExact(a[1..], b[1..]);
        if a[0] == b[0] {
          CommonPrefix(Utf8(a[0]), Encoded(a[1..]), Encoded(b[1..]));
        } else if a[0] < b[0] {
          CharOrder(a[0], b[0], Encoded(a[1..]), Encoded(b[1..]));
        } else {
          CharOrder(b[0], a[0], Encoded(b[1..]), Encoded(a[1..]));
        }
      }
    }
  }

  /** Index of the first character at or after `from` that is not `c`. */
  function FirstOther(s: string, c: char, from: nat): (i: nat)
    requires from <= |s|
    ensures from <= i <= |s| && (i < |s| ==> s[i] != c)
    decreases |s| - from
  {
    if from < |s| && s[from] == c then FirstOther(s, c, from + 1) else from
  }

  /** One past the last character before `to` that is not `c`. */
  function LastOther(s: string, c: char, to: nat): (i: nat)
    requires to <= |s|
    ensures i <= to && (i > 0 ==> s[i - 1] != c)
  {
    if to > 0 && s[to - 1] == c then LastOther(s, c, to - 1) else to
  }

  function TrimLeft(s: string, c: char): string {
    s[FirstOther(s, c, 0)..]
  }

  function TrimRight(s: string, c: char): string {
    s[..LastOther(s, c, |s|)]
  }

  /** Go's strings.Trim with a one-character cutset. */
  function Trim(s: string, c: char): string {
    TrimRight(TrimLeft(s, c), c)
  }

  lemma {:induction false} FirstOtherSkips(s: string, c: char, from: nat, i: nat)
    requires from <= i <= |s| && (i < |s| ==> s[i] != c)
    requires forall k :: from <= k < i ==> s[k] == c
    ensures FirstOther(s, c, from) == i
    decreases i - from
  {
    if from < i {
      FirstOtherSkips(s, c, from + 1, i);
    }
  }

  lemma {:induction false} LastOtherSkips(s: string, c: char, to: nat, i: nat)
    requires i <= to <= |s| && (i > 0 ==> s[i - 1] != c)
    requires forall k :: i <= k < to ==> s[k] == c
    ensures LastOther(s, c, to) == i
  {
    if i < to {
      LastOtherSkips(s, c, to - 1, i);
    }
  }

  /** Trimming keeps the part between the first and the last other character. */
  lemma TrimKeeps(s: string, c: char, i: nat, j: nat)
    requires i < j <= |s| && s[i] != c && s[j - 1] != c
    requires forall k :: 0 <= k < i || j <= k < |s| ==> s[k] == c
    ensures Trim(s, c) == s[i..j] && TrimRight(s, c) == s[..j]
  {
    FirstOtherSkips(s, c, 0, i);
    LastOtherSkips(s[i..], c, |s| - i, j - i);
    LastOtherSkips(s, c, |s|, j);
  }

  /** Trimming strips off both ends what is to be trimmed, all of it, and nothing else. */
  lemma TrimExact(s: string, c: char) returns (front: string, back: string)
    ensures s == front + Trim(s, c) + back
    ensures forall i :: 0 <= i < |front| ==> front[i] == c
    ensures forall i :: 0 <= i < |back| ==> back[i] == c
    ensures Trim(s, c) != "" ==> Trim(s, c)[0] != c && Trim(s, c)[|Trim(s, c)| - 1] != c
  {
    hide FirstOther, LastOther;
    var i := FirstOther(s, c, 0);
    var l := s[i..];
    var j := LastOther(l, c, |l|);
    Edges(s, c, 0, |s|);
    Edges(l, c, 0, |l|);
    front, back := s[..i], l[j..];
    assert l == l[..j] + back;
  }

  /** Stripping on the right and adding one back makes no difference to a full trim. */
  lemma TrimAfterTrimRight(s: string, c: char)
    ensures Trim(TrimRight(s, c) + [c], c) == Trim(s, c)
  {
    if k :| 0 <= k < |s| && s[k] != c {
      var i, j := FirstOther(s, c, 0), LastOther(s, c, |s|);
      Edges(s, c, 0, |s|);
      TrimKeeps(s, c, i, j);
      TrimKeeps(s[..j] + [c], c, i, j);
    } else {
    }
  }

  lemma {:induction false} Edges(s: string, c: char, from: nat, to: nat)
    requires from <= |s| && to <= |s|
    ensures forall k :: from <= k < FirstOther(s, c, from) ==> s[k] == c
    ensures forall k :: LastOther(s, c, to) <= k < to ==> s[k] == c
    decreases |s| - from + to
  {
    if from < |s| && s[from] == c {
      Edges(s, c, from + 1, to);
    } else if to > 0 && s[to - 1] == c {
      Edges(s, c, from, to - 1);
    }
  }
}
