/** Requested paths in the restore_jobs row: the hand-built array
    (api/internal/restore/restore.go:446-461) against the JSON decoder that
    reads it back after a restart (api/internal/restore/resume.go:178-182;
    sections 2 to 7 of RFC 8259). */
module JsonPaths {
  import opened Wrappers

  // ---- Writing ---------------------------------------------------------------------

  /** strings.ReplaceAll(p, `"`, `\"`) */
  function Escape(p: string): string {
    if p == "" then "" else (if p[0] == '"' then "\\\"" else [p[0]]) + Escape(p[1..])
  }

  function Quote(p: string): string {
    "\"" + Escape(p) + "\""
  }

  /** The elements from the first on, with the closing bracket. */
  function Tail(paths: seq<string>): string
    requires paths != []
  {
    Quote(paths[0]) + if |paths| == 1 then "]" else "," + Tail(paths[1..])
  }

  function Encode(paths: seq<string>): string {
    if paths == [] then "[]" else "[" + Tail(paths)
  }

  /** What the builder holds after `n` elements. */
  function Built(paths: seq<string>, n: nat): string
    requires n <= |paths|
  {
    if n == 0 then "[" else Built(paths, n - 1) + (if n > 1 then "," else "") + Quote(paths[n - 1])
  }

  lemma Regroup(a: string, b: string, c: string, d: string, e: string)
    ensures a + b + (c + (d + e)) == (a + b + c) + d + e
  {
  }

  lemma {:induction false} BuiltThenTail(paths: seq<string>, n: nat)
    requires n < |paths|
    ensures Built(paths, n) + (if n > 0 then "," else "") + Tail(paths[n..]) == Built(paths, |paths|) + "]"
    decreases |paths| - n
  {
    hide Quote;
    var comma := if n > 0 then "," else "";
    assert paths[n..][0] == paths[n] && paths[n..][1..] == paths[n + 1..];
    assert Built(paths, n + 1) == Built(paths, n) + comma + Quote(paths[n]);
    if n + 1 < |paths| {
      BuiltThenTail(paths, n + 1);
      Regroup(Built(paths, n), comma, Quote(paths[n]), ",", Tail(paths[n + 1..]));
    } else {
      Regroup(Built(paths, n), comma, Quote(paths[n]), "]", "");
      assert "]" + "" == "]" && Built(paths, n + 1) + "]" + "" == Built(paths, n + 1) + "]";
    }
  }

  /** The loop with the string builder. */
  method ToJSONArray(paths: seq<string>) returns (text: string)
    ensures text == Encode(paths)
  {
    if |paths| == 0 {
      return "[]";
    }
    text := "[";
    for i := 0 to |paths|
      invariant text == Built(paths, i)
    {
      if i > 0 {
        text := text + ",";
      }
      text := text + Quote(paths[i]);
    }
    text := text + "]";
    BuiltThenTail(paths, 0);
    assert paths[0..] == paths;
    assert Built(paths, 0) + "" + Tail(paths) == "[" + Tail(paths);
  }

  // ---- Reading ---------------------------------------------------------------------

  function HexValue(c: char): Option<nat> {
    if '0' <= c <= '9' then Some(c as int - '0' as int)
    else if 'a' <= c <= 'f' then Some(c as int - 'a' as int + 10)
    else if 'A' <= c <= 'F' then Some(c as int - 'A' as int + 10)
    else None
  }

  /** The code unit of a leading \uXXXX. */
  function CodeUnit(s: string): (u: Option<nat>)
    ensures u.Some? ==> |s| >= 6 && u.value < 0x1_0000 && forall i :: 0 <= i < 6 ==> s[i] != '"'
  {
    if |s| < 6 || s[0] != '\\' || s[1] != 'u' then None
    else
      match (HexValue(s[2]), HexValue(s[3]), HexValue(s[4]), HexValue(s[5]))
      case (Some(a), Some(b), Some(c), Some(d)) => Some(((a * 16 + b) * 16 + c) * 16 + d)
      case _ => None
  }

  /** One escape sequence: the character it stands for and its length. An
      unpaired surrogate becomes U+FFFD. */
  datatype Escaped = Escaped(c: char, length: nat)

  function ReadEscape(s: string): (r: Option<Escaped>)
    requires s != "" && s[0] == '\\'
    ensures r.Some? ==> 2 <= r.value.length <= |s|
    ensures r.Some? && r.value.length > 2 ==> forall i :: 0 <= i < r.value.length ==> s[i] != '"'
    ensures r.Some? && r.value.length == 2 && s[1] == '"' ==> r.value.c == '"'
  {
    if |s| < 2 then None
    else match s[1]
      case '"' => Some(Escaped('"', 2))
      case '\\' => Some(Escaped('\\', 2))
      case '/' => Some(Escaped('/', 2))
      case 'b' => Some(Escaped('\U{0008}', 2))
      case 'f' => Some(Escaped('\U{000C}', 2))
      case 'n' => Some(Escaped('\n', 2))
      case 'r' => Some(Escaped('\r', 2))
      case 't' => Some(Escaped('\t', 2))
      case _ =>
        match CodeUnit(s)
        case None => None
        case Some(u) =>
          if u < 0xD800 || 0xE000 <= u then Some(Escaped(u as char, 6))
          else if u < 0xDC00 && CodeUnit(s[6..]).Some? && 0xDC00 <= CodeUnit(s[6..]).value < 0xE000 then
            Some(Escaped((0x1_0000 + (u - 0xD800) * 0x400 + (CodeUnit(s[6..]).value - 0xDC00)) as char, 12))
          else Some(Escaped('\U{FFFD}', 6))
  }

  /** A value read and the text after it. */
  datatype Read<T> = Read(value: T, rest: string)

  /** The inside of a string, after its opening quote. */
  function ReadString(s: string): (r: Option<Read<string>>)
    ensures r.Some? ==> |r.value.rest| < |s|
    decreases |s|
  {
    if s == "" then None
    else if s[0] == '"' then Some(Read("", s[1..]))
    else if s[0] == '\\' then
      match ReadEscape(s)
      case None => None
      case Some(e) =>
        (match ReadString(s[e.length..])
         case None => None
         case Some(r) => Some(Read([e.c] + r.value, r.rest)))
    else if s[0] < ' ' then None
    else
      match ReadString(s[1..])
      case None => None
      case Some(r) => Some(Read([s[0]] + r.value, r.rest))
  }

  function SkipSpace(s: string): (r: string)
    ensures |r| <= |s|
  {
    if s != "" && (s[0] == ' ' || s[0] == '\t' || s[0] == '\n' || s[0] == '\r') then SkipSpace(s[1..]) else s
  }

  /** An element decoded into a Go string: a string, or null for "". */
  function ReadElement(s: string): (r: Option<Read<string>>)
    ensures r.Some? ==> |r.value.rest| < |s|
  {
    if s != "" && s[0] == '"' then ReadString(s[1..])
    else if "null" <= s then Some(Read("", s[4..]))
    else None
  }

  /** Elements up to the closing bracket, which must end the text. */
  function ReadElements(s: string): Option<seq<string>>
    decreases |s|
  {
    match ReadElement(SkipSpace(s))
    case None => None
    case Some(e) =>
      var rest := SkipSpace(e.rest);
      if rest == "" then None
      else if rest[0] == ']' then if SkipSpace(rest[1..]) == "" then Some([e.value]) else None
      else if rest[0] == ',' then
        match ReadElements(rest[1..])
        case None => None
        case Some(es) => Some([e.value] + es)
      else None
  }

  /** json.Unmarshal into a []string. */
  function Decode(text: string): Option<seq<string>> {
    var s := SkipSpace(text);
    if s == "" || s[0] != '[' then None
    else
      var inner := SkipSpace(s[1..]);
      if inner != "" && inner[0] == ']' then if SkipSpace(inner[1..]) == "" then Some([]) else None
      else ReadElements(inner)
  }

  // ---- The round trip --------------------------------------------------------------

  predicate IsClean(c: char) {
    c != '\\' && ' ' <= c
  }

  /** Free of backslashes and control characters; quotes are fine. */
  predicate Clean(p: string) {
    forall i :: 0 <= i < |p| ==> IsClean(p[i])
  }

  function Count(s: string, f: char -> bool): nat {
    if s == "" then 0 else (if f(s[0]) then 1 else 0) + Count(s[1..], f)
  }

  const IsQuote: char -> bool := c => c == '"'
  const IsDirty: char -> bool := c => !IsClean(c)

  lemma {:induction false} CountAppend(a: string, b: string, f: char -> bool)
    ensures Count(a + b, f) == Count(a, f) + Count(b, f)
  {
    if a == "" {
      assert a + b == b;
    } else {
      assert (a + b)[1..] == a[1..] + b;
      CountAppend(a[1..], b, f);
    }
  }

  lemma {:induction false} CountZero(p: string)
    ensures Count(p, IsDirty) == 0 <==> Clean(p)
  {
    if p != "" {
      CountZero(p[1..]);
      assert Clean(p) <==> IsClean(p[0]) && Clean(p[1..]) by {
        assert forall i :: 0 < i < |p| ==> p[i] == p[1..][i - 1];
      }
    }
  }

  lemma {:induction false} EscapeCounts(p: string)
    ensures |Escape(p)| == |p| + Count(p, IsQuote)
    ensures Count(Escape(p), IsQuote) == Count(p, IsQuote)
  {
    if p != "" {
      EscapeCounts(p[1..]);
      var head := if p[0] == '"' then "\\\"" else [p[0]];
      CountAppend(head, Escape(p[1..]), IsQuote);
      assert Count(head, IsQuote) == if p[0] == '"' then 1 else 0 by {
        assert head[1..] == if p[0] == '"' then "\"" else "";
      }
    }
  }

  /** Reading a string undoes the escaping of a clean path. */
  lemma {:induction false} ReadsClean(p: string, rest: string)
    requires Clean(p)
    ensures ReadString(Escape(p) + "\"" + rest) == Some(Read(p, rest))
  {
    var s := Escape(p) + "\"" + rest;
    if p == "" {
      assert s[1..] == rest;
    } else {
      assert Clean(p[1..]);
      ReadsClean(p[1..], rest);
      var n := if p[0] == '"' then 2 else 1;
      assert s[n..] == Escape(p[1..]) + "\"" + rest;
      assert IsClean(p[0]);
      assert p == [p[0]] + p[1..];
    }
  }

  /** The text that was read as `value`, up to its closing quote, has a
      character for each of the value's and one more for each quote, backslash
      and control character; and no quote that is not in the value. */
  ghost predicate Paid(s: string, value: string, rest: string) {
    var used := |s| - |rest| - 1;
    && 0 <= used && s == s[..used] + "\"" + rest
    && used >= |value| + Count(value, IsQuote) + Count(value, IsDirty)
    && Count(s[..used], IsQuote) <= Count(value, IsQuote)
  }

  lemma PaidOneMore(s: string, n: nat, c: char, value: string, rest: string)
    requires 1 <= n <= |s| && Paid(s[n..], value, rest)
    requires n >= 1 + (if IsQuote(c) then 1 else 0) + (if IsDirty(c) then 1 else 0)
    requires Count(s[..n], IsQuote) <= if IsQuote(c) then 1 else 0
    ensures Paid(s, [c] + value, rest)
  {
    var used := |s| - |rest| - 1;
    assert ([c] + value)[1..] == value;
    assert s[..used] == s[..n] + s[n..][..used - n];
    assert s == s[..n] + s[n..];
    CountAppend(s[..n], s[n..][..used - n], IsQuote);
  }

  lemma {:induction false} ReadingCosts(s: string)
    requires ReadString(s).Some?
    ensures Paid(s, ReadString(s).value.value, ReadString(s).value.rest)
    decreases |s|
  {
    if s[0] == '"' {
      assert s[..0] == "";
    } else {
      var n := if s[0] == '\\' then ReadEscape(s).value.length else 1;
      var c := if s[0] == '\\' then ReadEscape(s).value.c else s[0];
      var inner := ReadString(s[n..]).value;
      ReadingCosts(s[n..]);
      HeadQuotes(s, n);
      PaidOneMore(s, n, c, inner.value, inner.rest);
    }
  }

  /** Quotes in the text that stands for one character. */
  lemma HeadQuotes(s: string, n: nat)
    requires s != "" && s[0] != '"' && 1 <= n <= |s|
    requires n > 2 ==> forall i :: 0 <= i < n ==> s[i] != '"'
    ensures Count(s[..n], IsQuote) == if n == 2 && s[1] == '"' then 1 else 0
  {
    if n == 2 {
      assert s[..2] == [s[0]] + [s[1]] && [s[0]][1..] == "" && [s[1]][1..] == "";
      CountAppend([s[0]], [s[1]], IsQuote);
    } else {
      CountNone(s[..n], IsQuote);
    }
  }

  lemma {:induction false} CountNone(s: string, f: char -> bool)
    requires forall i :: 0 <= i < |s| ==> !f(s[i])
    ensures Count(s, f) == 0
  {
    if s != "" {
      CountNone(s[1..], f);
    }
  }

  lemma PrefixCounts(a: string, b: string)
    requires a <= b
    ensures Count(a, IsQuote) <= Count(b, IsQuote)
  {
    assert b == a + b[|a|..];
    CountAppend(a, b[|a|..], IsQuote);
  }

  /** If reading the escaped path gives the path back then the path is clean. */
  lemma OnlyCleanReadsBack(p: string, rest: string)
    requires var r := ReadString(Escape(p) + "\"" + rest); r.Some? && r.value.value == p
    ensures Clean(p)
  {
    var whole := Escape(p) + "\"";
    var s := whole + rest;
    var used := |s| - |ReadString(s).value.rest| - 1;
    assert "\""[1..] == "" && Count("\"", IsQuote) == 1;
    hide Escape, ReadString, Count, Clean;
    ReadingCosts(s);
    EscapeCounts(p);
    CountZero(p);
    CountAppend(Escape(p), "\"", IsQuote);
    if used > |Escape(p)| {
      PrefixCounts(whole, s[..used]);
    }
  }

  predicate AllClean(paths: seq<string>) {
    forall i :: 0 <= i < |paths| ==> Clean(paths[i])
  }

  lemma AllCleanCons(paths: seq<string>)
    requires paths != []
    ensures AllClean(paths) <==> Clean(paths[0]) && AllClean(paths[1..])
  {
    assert forall i :: 0 < i < |paths| ==> paths[i] == paths[1..][i - 1];
    assert forall i :: 0 <= i < |paths| - 1 ==> paths[1..][i] == paths[i + 1];
  }

  lemma {:induction false} ElementsReadBack(paths: seq<string>)
    requires paths != []
    ensures ReadElements(Tail(paths)) == Some(paths) <==> AllClean(paths)
  {
    var s := Tail(paths);
    var p := paths[0];
    var rest := if |paths| == 1 then "]" else "," + Tail(paths[1..]);
    AllCleanCons(paths);
    assert s == "\"" + (Escape(p) + "\"" + rest);
    assert s[1..] == Escape(p) + "\"" + rest;
    if Clean(p) {
      ReadsClean(p, rest);
      assert ReadElement(s) == Some(Read(p, rest));
      if |paths| > 1 {
        assert rest[1..] == Tail(paths[1..]);
        ElementsReadBack(paths[1..]);
        FirstThen(s, p, rest, paths);
      } else {
        assert paths == [p] && "]"[1..] == "";
      }
    } else if ReadElements(s) == Some(paths) {
      assert ReadElements(s).value[0] == ReadString(s[1..]).value.value;
      OnlyCleanReadsBack(p, rest);
    }
  }

  lemma FirstThen(s: string, p: string, rest: string, paths: seq<string>)
    requires |paths| > 1 && paths[0] == p && s != "" && s[0] == '"'
    requires ReadElement(s) == Some(Read(p, rest)) && rest != "" && rest[0] == ','
    ensures ReadElements(s) == Some(paths) <==> ReadElements(rest[1..]) == Some(paths[1..])
  {
    assert paths == [p] + paths[1..];
    if ReadElements(s) == Some(paths) {
      var es := ReadElements(rest[1..]).value;
      assert ([p] + es)[1..] == es;
    }
  }

  /** The stored paths read back as they were exactly when none of them has a
      backslash or a control character. Quotes need no exception. */
  lemma RoundTripExact(paths: seq<string>)
    ensures Decode(Encode(paths)) == Some(paths) <==> AllClean(paths)
  {
    if paths != [] {
      assert Encode(paths)[1..] == Tail(paths);
      assert Tail(paths)[0] == '"';
      ElementsReadBack(paths);
    } else {
      assert Encode(paths)[1..] == "]" && "]"[1..] == "";
    }
  }

  /** A path ending in a backslash swallows the closing quote. */
  lemma TrailingBackslashFails()
    ensures Encode(["a\\"]) == "[\"a\\\"]" && Decode(Encode(["a\\"])) != Some(["a\\"])
  {
    assert "a\\"[1..] == "\\" && "\\"[1..] == "";
    assert !Clean("a\\") by { assert !IsClean("a\\"[1]); }
    RoundTripExact(["a\\"]);
    assert ["a\\"][0] == "a\\";
  }
}
