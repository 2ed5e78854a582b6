/** Source paths in a backup_definitions row: the server's JSON encoding
    (api/internal/server/router.go:1386-1389) against the scheduler's minimal
    parser (api/internal/scheduler/scheduler.go:255-304). */
module SchedulerPaths {
  import opened Text
  import J = JsonPaths
  import opened Wrappers

  // ---- json.Marshal of a []string ----------------------------------------------------

  /** Characters that Go's encoder writes as they are; it escapes quotes,
      backslashes, control characters, HTML characters and two line separators. */
  predicate Plain(c: char) {
    c != '"' && c != '\\' && ' ' <= c && c != '<' && c != '>' && c != '&' && c != '\U{2028}' && c != '\U{2029}'
  }

  function HexDigit(n: nat): char
    requires n < 16
  {
    if n < 10 then ('0' as int + n) as char else ('a' as int + n - 10) as char
  }

  function EscapeChar(c: char): (e: string)
    ensures Plain(c) ==> e == [c]
    ensures !Plain(c) ==> |e| >= 2 && e[0] == '\\'
  {
    if Plain(c) then [c]
    else match c
      case '"' => "\\\""
      case '\\' => "\\\\"
      case '\n' => "\\n"
      case '\r' => "\\r"
      case '\t' => "\\t"
      case '\U{0008}' => "\\b"
      case '\U{000C}' => "\\f"
      case '\U{2028}' => "\\u2028"
      case '\U{2029}' => "\\u2029"
      case _ => if c as int < 0x100 then "\\u00" + [HexDigit(c as int / 16), HexDigit(c as int % 16)] else "\\ufffd"
  }

  function Escape(p: string): string {
    if p == "" then "" else EscapeChar(p[0]) + Escape(p[1..])
  }

  function Quote(p: string): string {
    "\"" + Escape(p) + "\""
  }

  /** The array without its brackets. */
  function Inner(paths: seq<string>): string {
    if paths == [] then ""
    else if |paths| == 1 then Quote(paths[0])
    else Quote(paths[0]) + "," + Inner(paths[1..])
  }

  function Marshal(paths: seq<string>): string {
    "[" + Inner(paths) + "]"
  }

  // ---- The scheduler's parser ----------------------------------------------------------

  function Nesting(c: char): int {
    if c == '[' || c == '{' then 1 else if c == ']' || c == '}' then -1 else 0
  }

  /** The pieces between the commas at depth 0, starting at the given depth. */
  function Split(s: string, depth: int): (ps: seq<string>)
    ensures ps != []
  {
    if s == "" then [""]
    else if s[0] == ',' && depth == 0 then [""] + Split(s[1..], depth)
    else
      var ps := Split(s[1..], depth + Nesting(s[0]));
      [[s[0]] + ps[0]] + ps[1..]
  }

  function Depth(s: string): int {
    if s == "" then 0 else Nesting(s[0]) + Depth(s[1..])
  }

  lemma {:induction false} DepthAppend(a: string, b: string)
    ensures Depth(a + b) == Depth(a) + Depth(b)
  {
    if a == "" {
      assert a + b == b;
    } else {
      assert (a + b)[1..] == a[1..] + b;
      DepthAppend(a[1..], b);
    }
  }

  /** Splitting off what the loop has already passed. */
  lemma {:induction false} SplitGoesOn(a: string, b: string, depth: int)
    requires CommasNested(a, depth)
    ensures var ps := Split(b, depth + Depth(a)); Split(a + b, depth) == [a + ps[0]] + ps[1..]
  {
    var ps := Split(b, depth + Depth(a));
    if a == "" {
      assert a + b == b && a + ps[0] == ps[0];
      assert [ps[0]] + ps[1..] == ps;
    } else {
      assert (a + b)[1..] == a[1..] + b;
      SplitGoesOn(a[1..], b, depth + Nesting(a[0]));
      assert [a[0]] + (a[1..] + ps[0]) == a + ps[0];
    }
  }

  /** No comma at depth 0. */
  predicate CommasNested(s: string, depth: int) {
    s == "" || ((s[0] == ',' ==> depth != 0) && CommasNested(s[1..], depth + Nesting(s[0])))
  }

  lemma {:induction false} CommasNestedSnoc(s: string, c: char, depth: int)
    ensures CommasNested(s + [c], depth) <==> CommasNested(s, depth) && (c == ',' ==> depth + Depth(s) != 0)
  {
    if s == "" {
      assert s + [c] == [c] && [c][1..] == "";
    } else {
      assert (s + [c])[1..] == s[1..] + [c];
      CommasNestedSnoc(s[1..], c, depth + Nesting(s[0]));
    }
  }

  /** A comma at depth 0 ends a piece. */
  lemma SplitFirst(a: string, rest: string)
    requires CommasNested(a, 0) && Depth(a) == 0
    ensures Split(a + ("," + rest), 0) == [a] + Split(rest, 0)
  {
    SplitComma(rest);
    hide Split, CommasNested, Depth;
    SplitGoesOn(a, "," + rest, 0);
    assert a + "" == a && ([""] + Split(rest, 0))[1..] == Split(rest, 0);
  }

  lemma SplitComma(rest: string)
    ensures Split("," + rest, 0) == [""] + Split(rest, 0)
  {
    assert ("," + rest)[1..] == rest;
  }

  lemma PieceGrows(a: string, c: char)
    ensures Depth(a + [c]) == Depth(a) + Nesting(c)
    ensures CommasNested(a + [c], 0) <==> CommasNested(a, 0) && (c == ',' ==> Depth(a) != 0)
  {
    CommasNestedSnoc(a, c, 0);
    DepthAppend(a, [c]);
    assert [c][1..] == "";
  }

  /** The loop over depth, start and parts. */
  method SplitJSON(s: string) returns (parts: seq<string>)
    ensures parts == Split(s, 0)
  {
    hide Depth, CommasNested, Split;
    parts := [];
    var depth, start := 0, 0;
    Starts();
    for i := 0 to |s|
      invariant start <= i && depth == Depth(s[start..i])
      invariant CommasNested(s[start..i], 0)
      invariant Split(s, 0) == parts + Split(s[start..], 0)
    {
      var c := s[i];
      assert s[start..i + 1] == s[start..i] + [c];
      PieceGrows(s[start..i], c);
      if c == '[' || c == '{' {
        depth := depth + 1;
      } else if c == ']' || c == '}' {
        depth := depth - 1;
      } else if c == ',' && depth == 0 {
        assert s[start..] == s[start..i] + ("," + s[i + 1..]);
        SplitFirst(s[start..i], s[i + 1..]);
        parts := parts + [s[start..i]];
        start := i + 1;
        assert s[start..i + 1] == "";
      }
    }
    assert s[start..|s|] == s[start..];
    SplitOnly(s[start..]);
    parts := parts + [s[start..]];
  }

  lemma Starts()
    ensures Depth("") == 0 && CommasNested("", 0)
  {
  }

  lemma SplitOnly(a: string)
    requires CommasNested(a, 0)
    ensures Split(a, 0) == [a]
  {
    SplitGoesOn(a, "", 0);
    assert a + "" == a && [""][1..] == [];
  }

  /** Every piece has its commas inside brackets, and all but the last close what
      they open. With JoinSplit this says where the text is split. */
  lemma {:induction false} SplitPieces(s: string, depth: int)
    ensures var ps := Split(s, depth);
      && CommasNested(ps[0], depth) && (|ps| > 1 ==> depth + Depth(ps[0]) == 0)
      && (forall k :: 1 <= k < |ps| ==> CommasNested(ps[k], 0))
      && (forall k :: 1 <= k < |ps| - 1 ==> Depth(ps[k]) == 0)
  {
    if s != "" {
      if s[0] == ',' && depth == 0 {
        SplitPieces(s[1..], depth);
      } else {
        SplitPieces(s[1..], depth + Nesting(s[0]));
      }
    }
  }

  /** trim(part, `"`) and the check for empty parts. */
  function Kept(parts: seq<string>): (r: seq<string>)
    ensures |r| <= |parts|
  {
    if parts == [] then []
    else
      var p := Trim(parts[0], '"');
      (if p == "" then [] else [p]) + Kept(parts[1..])
  }

  /** parseJSONStringArray; the source slices off both ends unchecked. */
  function Parse(s: string): seq<string>
    requires |s| >= 2
  {
    var t := s[1..|s| - 1];
    if t == "" then [] else Kept(Split(t, 0))
  }

  /** trim: the two loops that shorten the text from either end. */
  method TrimQuotes(text: string) returns (s: string)
    ensures s == Trim(text, '"')
  {
    s := text;
    ghost var i := 0;
    while |s| > 0 && s[0] == '"'
      invariant i <= |text| && s == text[i..] && FirstOther(text, '"', i) == FirstOther(text, '"', 0)
      decreases |s|
    {
      s := s[1..];
      i := i + 1;
    }
    ghost var left := s;
    assert left == TrimLeft(text, '"');
    while |s| > 0 && s[|s| - 1] == '"'
      invariant |s| <= |left| && s == left[..|s|] && LastOther(left, '"', |s|) == LastOther(left, '"', |left|)
      decreases |s|
    {
      s := s[..|s| - 1];
    }
  }

  method ParseJSONStringArray(s: string) returns (result: seq<string>)
    requires |s| >= 2
    ensures result == Parse(s)
  {
    var t := s[1..|s| - 1];
    result := [];
    if t == "" {
      return;
    }
    var parts := SplitJSON(t);
    for i := 0 to |parts|
      invariant Kept(parts) == result + Kept(parts[i..])
    {
      assert parts[i..][1..] == parts[i + 1..];
      var part := TrimQuotes(parts[i]);
      if part != "" {
        result := result + [part];
      }
    }
  }

  // ---- Joining is the inverse of splitting -------------------------------------------------

  function Join(ps: seq<string>): string {
    if ps == [] then "" else if |ps| == 1 then ps[0] else ps[0] + "," + Join(ps[1..])
  }

  lemma JoinGrows(c: char, ps: seq<string>)
    requires ps != []
    ensures Join([[c] + ps[0]] + ps[1..]) == [c] + Join(ps)
  {
    assert ([[c] + ps[0]] + ps[1..])[1..] == ps[1..];
  }

  lemma JoinEmpty(ps: seq<string>)
    requires ps != []
    ensures Join([""] + ps) == "," + Join(ps)
  {
    assert ([""] + ps)[1..] == ps;
  }

  /** For every text, the pieces joined with commas give the text back. */
  lemma {:induction false} JoinSplit(s: string, depth: int)
    ensures Join(Split(s, depth)) == s
  {
    hide Join;
    if s == "" {
      JoinOne("");
    } else if s[0] == ',' && depth == 0 {
      JoinSplit(s[1..], depth);
      JoinEmpty(Split(s[1..], depth));
    } else {
      JoinSplit(s[1..], depth + Nesting(s[0]));
      JoinGrows(s[0], Split(s[1..], depth + Nesting(s[0])));
    }
  }

  lemma JoinOne(s: string)
    ensures Join([s]) == s
  {
  }

  // ---- When the parser inverts the encoder ---------------------------------------------------

  /** What the parser can take as the i-th of n paths: a non-empty text that
      needs no escaping, whose commas are all inside brackets, and whose
      brackets balance unless it is the last. */
  predicate Survives(p: string, last: bool) {
    p != "" && (forall i :: 0 <= i < |p| ==> Plain(p[i])) && CommasNested(p, 0) && (last || Depth(p) == 0)
  }

  predicate AllSurvive(paths: seq<string>) {
    forall i :: 0 <= i < |paths| ==> Survives(paths[i], i == |paths| - 1)
  }

  lemma {:induction false} EscapePlain(p: string)
    requires forall i :: 0 <= i < |p| ==> Plain(p[i])
    ensures Escape(p) == p
  {
    if p != "" {
      EscapePlain(p[1..]);
    }
  }

  lemma QuoteNests(p: string)
    requires Escape(p) == p
    ensures CommasNested(Quote(p), 0) <==> CommasNested(p, 0)
    ensures Depth(Quote(p)) == Depth(p)
  {
    hide Escape;
    CommasNestedSnoc(p, '"', 0);
    DepthAppend(p, "\"");
    assert "\""[1..] == "";
    assert Quote(p)[1..] == p + ['"'];
  }

  lemma QuoteTrims(p: string)
    requires p != "" && p[0] != '"' && p[|p| - 1] != '"' && Escape(p) == p
    ensures Trim(Quote(p), '"') == p
  {
    hide Escape, Trim;
    var q := Quote(p);
    assert q == "\"" + p + "\"";
    assert q[1] == p[0] && q[|p|] == p[|p| - 1];
    TrimKeeps(q, '"', 1, |p| + 1);
    assert q[1..|p| + 1] == p;
  }

  lemma QuotePlain(p: string)
    requires forall i :: 0 <= i < |p| ==> Plain(p[i])
    ensures Quote(p) == "\"" + p + "\""
    ensures CommasNested(Quote(p), 0) <==> CommasNested(p, 0)
    ensures Depth(Quote(p)) == Depth(p)
    ensures p != "" ==> Trim(Quote(p), '"') == p
  {
    hide Escape, Trim, CommasNested, Depth;
    EscapePlain(p);
    QuoteNests(p);
    if p != "" {
      assert Plain(p[0]) && Plain(p[|p| - 1]);
      QuoteTrims(p);
    }
  }

  lemma KeptCons(part: string, parts: seq<string>)
    requires Trim(part, '"') != ""
    ensures Kept([part] + parts) == [Trim(part, '"')] + Kept(parts)
  {
    hide Trim;
    assert ([part] + parts)[1..] == parts;
  }

  /** Surviving paths are split exactly at the separators. */
  lemma {:induction false} SurvivorsParse(paths: seq<string>)
    requires paths != [] && AllSurvive(paths)
    ensures Kept(Split(Inner(paths), 0)) == paths
  {
    hide Trim, Split, Kept, Quote, CommasNested, Depth;
    var p := paths[0];
    assert Survives(p, |paths| == 1);
    QuotePlain(p);
    if |paths| == 1 {
      SplitOnly(Quote(p));
      KeptCons(Quote(p), []);
      assert paths == [p] && [Quote(p)] + [] == [Quote(p)];
    } else {
      hide AllSurvive;
      SurvivorsParse(paths[1..]);
      SplitFirst(Quote(p), Inner(paths[1..]));
      assert Inner(paths) == Quote(p) + ("," + Inner(paths[1..]));
      KeptCons(Quote(p), Split(Inner(paths[1..]), 0));
    }
  }

  // ---- In plain terms ------------------------------------------------------------------------

  const IsOpening: char -> bool := c => c == '[' || c == '{'
  const IsClosing: char -> bool := c => c == ']' || c == '}'

  lemma {:induction false} DepthCounts(s: string)
    ensures Depth(s) == J.Count(s, IsOpening) - J.Count(s, IsClosing)
  {
    if s != "" {
      DepthCounts(s[1..]);
    }
  }

  /** As many brackets are open as closed before the i-th character. */
  predicate LevelAt(s: string, i: nat) {
    i <= |s| && J.Count(s[..i], IsOpening) == J.Count(s[..i], IsClosing)
  }

  lemma {:induction false} CommasNestedExact(s: string, n: nat)
    requires n <= |s|
    ensures CommasNested(s[..n], 0) <==> forall i :: 0 <= i < n && s[i] == ',' ==> !LevelAt(s, i)
  {
    if n > 0 {
      CommasNestedExact(s, n - 1);
      assert s[..n] == s[..n - 1] + [s[n - 1]];
      CommasNestedSnoc(s[..n - 1], s[n - 1], 0);
      DepthCounts(s[..n - 1]);
    }
  }

  /** A path survives exactly if it is not empty, has nothing to escape, has no
      comma outside all brackets, and closes what it opens unless it is the last. */
  lemma SurvivesExact(p: string, last: bool)
    ensures Survives(p, last) <==>
      && p != ""
      && (forall i :: 0 <= i < |p| ==> p[i] != '"' && p[i] != '\\' && ' ' <= p[i] && p[i] != '<' && p[i] != '>'
                                        && p[i] != '&' && p[i] != '\U{2028}' && p[i] != '\U{2029}')
      && (forall i :: 0 <= i < |p| && p[i] == ',' ==> !LevelAt(p, i))
      && (last || LevelAt(p, |p|))
  {
    hide CommasNested, Depth;
    assert p[..|p|] == p;
    CommasNestedExact(p, |p|);
    DepthCounts(p);
    assert Survives(p, last) ==> forall i :: 0 <= i < |p| ==> Plain(p[i]);
    hide J.Count;
  }

  // ---- What the encoder writes, a JSON decoder reads ---------------------------------------------

  lemma HexDigitReads(n: nat)
    requires n < 16
    ensures J.HexValue(HexDigit(n)) == Some(n)
  {
  }

  /** An escape stands for its character, and the decoder takes all of it. */
  lemma ReadsEscape(c: char, rest: string)
    requires !Plain(c)
    ensures J.ReadEscape(EscapeChar(c) + rest) == Some(J.Escaped(c, |EscapeChar(c)|))
  {
    var e := EscapeChar(c);
    var s := e + rest;
    assert forall i :: 0 <= i < |e| ==> s[i] == e[i];
    if |e| == 6 {
      if c as int < 0x100 {
        HexDigitReads(c as int / 16);
        HexDigitReads(c as int % 16);
      }
    }
  }

  lemma ReadsOne(c: char, more: string, value: string, rest: string)
    requires J.ReadString(more) == Some(J.Read(value, rest))
    ensures J.ReadString(EscapeChar(c) + more) == Some(J.Read([c] + value, rest))
  {
    var e := EscapeChar(c);
    assert (e + more)[|e|..] == more && (e + more)[0] == e[0];
    if !Plain(c) {
      ReadsEscape(c, more);
    }
    hide J.ReadEscape, EscapeChar;
  }

  lemma Regroup(a: string, b: string, c: string, d: string)
    ensures (a + b) + c + d == a + (b + c + d)
  {
  }

  lemma {:induction false} ReadsMarshalled(p: string, rest: string)
    ensures J.ReadString(Escape(p) + "\"" + rest) == Some(J.Read(p, rest))
  {
    if p == "" {
      assert ("\"" + rest)[1..] == rest && "" + "\"" + rest == "\"" + rest;
    } else {
      var e, tail := EscapeChar(p[0]), Escape(p[1..]);
      assert Escape(p) == e + tail;
      hide J.ReadString, EscapeChar, Escape;
      ReadsMarshalled(p[1..], rest);
      ReadsOne(p[0], tail + "\"" + rest, p[1..], rest);
      Regroup(e, tail, "\"", rest);
      assert p == [p[0]] + p[1..];
    }
  }

  lemma ReadsQuoted(p: string, rest: string)
    ensures Quote(p) + rest != "" && (Quote(p) + rest)[0] == '"'
    ensures J.ReadElement(Quote(p) + rest) == Some(J.Read(p, rest))
  {
    hide J.ReadString, Escape;
    assert (Quote(p) + rest)[1..] == Escape(p) + "\"" + rest;
    ReadsMarshalled(p, rest);
  }

  lemma {:induction false} ElementsMarshalled(paths: seq<string>)
    requires paths != []
    ensures J.ReadElements(Inner(paths) + "]") == Some(paths)
  {
    hide J.ReadElement, Quote;
    var p := paths[0];
    if |paths| == 1 {
      ReadsQuoted(p, "]");
      assert paths == [p] && "]"[1..] == "";
    } else {
      var more := Inner(paths[1..]) + "]";
      var rest := "," + more;
      ReadsQuoted(p, rest);
      assert Inner(paths) + "]" == Quote(p) + rest && rest[1..] == more;
      ElementsMarshalled(paths[1..]);
      assert paths == [p] + paths[1..];
      hide Inner;
      assert J.SkipSpace(Quote(p) + rest) == Quote(p) + rest && J.SkipSpace(rest) == rest;
    }
  }

  lemma MarshalStarts(paths: seq<string>)
    requires paths != []
    ensures Inner(paths) != "" && Inner(paths)[0] == '"'
  {
    hide Escape;
  }

  lemma ArrayReads(inner: string)
    requires inner != "" && inner[0] == '"'
    ensures J.Decode("[" + inner) == J.ReadElements(inner)
  {
    hide J.ReadElements;
    assert ("[" + inner)[1..] == inner;
    assert J.SkipSpace(inner) == inner;
  }

  /** A JSON decoder gives back every list that the server's encoding stores,
      whatever its paths hold: it is the scheduler's own parser that does not. */
  lemma MarshalReadsBack(paths: seq<string>)
    ensures J.Decode(Marshal(paths)) == Some(paths)
  {
    if paths != [] {
      hide J.Decode, Inner;
      assert Marshal(paths) == "[" + (Inner(paths) + "]");
      MarshalStarts(paths);
      ElementsMarshalled(paths);
      ArrayReads(Inner(paths) + "]");
    } else {
      assert Marshal(paths)[1..] == "]" && "]"[1..] == "";
    }
  }

  // ---- The two printers ------------------------------------------------------------------------

  /** Both printers write these characters the same way. */
  predicate SameEscape(p: string) {
    forall i :: 0 <= i < |p| ==> Plain(p[i]) || p[i] == '"'
  }

  lemma {:induction false} EscapesAgree(p: string)
    ensures |J.Escape(p)| <= |Escape(p)|
    ensures |J.Escape(p)| == |Escape(p)| <==> SameEscape(p)
    ensures SameEscape(p) ==> J.Escape(p) == Escape(p)
  {
    if p != "" {
      EscapesAgree(p[1..]);
      assert SameEscape(p) <==> (Plain(p[0]) || p[0] == '"') && SameEscape(p[1..]) by {
        assert forall i :: 0 < i < |p| ==> p[i] == p[1..][i - 1];
      }
    }
  }

  predicate AllSameEscape(paths: seq<string>) {
    forall i :: 0 <= i < |paths| ==> SameEscape(paths[i])
  }

  lemma {:induction false} ElementsAgree(paths: seq<string>)
    requires paths != []
    ensures |J.Tail(paths)| <= |Inner(paths) + "]"|
    ensures |J.Tail(paths)| == |Inner(paths) + "]"| <==> AllSameEscape(paths)
    ensures AllSameEscape(paths) ==> J.Tail(paths) == Inner(paths) + "]"
  {
    hide Escape, J.Escape, SameEscape;
    EscapesAgree(paths[0]);
    if |paths| > 1 {
      ElementsAgree(paths[1..]);
      assert AllSameEscape(paths) <==> SameEscape(paths[0]) && AllSameEscape(paths[1..]) by {
        assert forall i :: 0 < i < |paths| ==> paths[i] == paths[1..][i - 1];
      }
      assert Inner(paths) + "]" == Quote(paths[0]) + ("," + (Inner(paths[1..]) + "]"));
    }
  }

  /** The restore manager's printer writes what json.Marshal would exactly if no
      path has a character to escape other than a quote. */
  lemma PrintersAgree(paths: seq<string>)
    ensures J.Encode(paths) == Marshal(paths) <==> AllSameEscape(paths)
  {
    if paths != [] {
      hide J.Tail, Inner, AllSameEscape;
      ElementsAgree(paths);
      assert Marshal(paths) == "[" + (Inner(paths) + "]");
    }
  }

  // ---- The converse: counting characters -----------------------------------------------------

  const IsComma: char -> bool := c => c == ','
  const IsBackslash: char -> bool := c => c == '\\'
  const IsSpecial: char -> bool := c => !Plain(c)

  function CountAll(ps: seq<string>, f: char -> bool): nat {
    if ps == [] then 0 else J.Count(ps[0], f) + CountAll(ps[1..], f)
  }

  lemma JoinCounts(ps: seq<string>, f: char -> bool)
    requires ps != []
    ensures J.Count(Join(ps), f) == CountAll(ps, f) + (|ps| - 1) * (if f(',') then 1 else 0)
  {
    if |ps| == 1 {
      assert ps[1..] == [];
    } else {
      JoinCounts(ps[1..], f);
      J.CountAppend(ps[0] + ",", Join(ps[1..]), f);
      J.CountAppend(ps[0], ",", f);
      assert J.Count(",", f) == if f(',') then 1 else 0 by {
        assert ","[1..] == "";
      }
    }
  }

  lemma {:induction false} InnerIsJoin(paths: seq<string>)
    ensures Inner(paths) == Join(Quotes(paths))
  {
    if |paths| > 1 {
      InnerIsJoin(paths[1..]);
      assert Quotes(paths)[1..] == Quotes(paths[1..]);
    }
  }

  function Quotes(paths: seq<string>): (qs: seq<string>)
    ensures |qs| == |paths| && forall i :: 0 <= i < |qs| ==> qs[i] == Quote(paths[i])
  {
    seq(|paths|, i requires 0 <= i < |paths| => Quote(paths[i]))
  }

  lemma {:induction false} EscapeCounts(p: string)
    ensures J.Count(Escape(p), IsComma) == J.Count(p, IsComma)
    ensures J.Count(Escape(p), IsBackslash) >= J.Count(p, IsSpecial) + J.Count(p, IsBackslash)
  {
    if p != "" {
      EscapeCounts(p[1..]);
      J.CountAppend(EscapeChar(p[0]), Escape(p[1..]), IsComma);
      J.CountAppend(EscapeChar(p[0]), Escape(p[1..]), IsBackslash);
      EscapeCharCounts(p[0]);
    }
  }

  lemma EscapeCharCounts(c: char)
    ensures J.Count(EscapeChar(c), IsComma) == if c == ',' then 1 else 0
    ensures J.Count(EscapeChar(c), IsBackslash) >= (if Plain(c) then 0 else 1) + (if c == '\\' then 1 else 0)
  {
    var e := EscapeChar(c);
    if Plain(c) {
      assert e[1..] == "";
    } else {
      J.CountNone(e, IsComma);
      if c == '\\' {
        assert e == "\\\\" && e[1..] == "\\" && e[1..][1..] == "";
      }
    }
  }

  lemma QuoteCounts(p: string)
    ensures J.Count(Quote(p), IsComma) == J.Count(p, IsComma)
    ensures J.Count(Quote(p), IsBackslash) >= J.Count(p, IsSpecial) + J.Count(p, IsBackslash)
  {
    EscapeCounts(p);
    assert "\""[1..] == "";
    J.CountAppend("\"" + Escape(p), "\"", IsComma);
    J.CountAppend("\"", Escape(p), IsComma);
    J.CountAppend("\"" + Escape(p), "\"", IsBackslash);
    J.CountAppend("\"", Escape(p), IsBackslash);
  }

  lemma {:induction false} QuotesCount(paths: seq<string>)
    ensures CountAll(Quotes(paths), IsComma) == CountAll(paths, IsComma)
    ensures CountAll(Quotes(paths), IsBackslash) >= CountAll(paths, IsSpecial) + CountAll(paths, IsBackslash)
  {
    if paths != [] {
      assert Quotes(paths)[1..] == Quotes(paths[1..]);
      QuotesCount(paths[1..]);
      QuoteCounts(paths[0]);
    }
  }

  /** Trimming quotes loses no other character. */
  lemma TrimCounts(s: string, f: char -> bool)
    requires !f('"')
    ensures J.Count(Trim(s, '"'), f) == J.Count(s, f)
  {
    hide Trim;
    var front, back := TrimExact(s, '"');
    J.CountAppend(front + Trim(s, '"'), back, f);
    J.CountAppend(front, Trim(s, '"'), f);
    J.CountNone(front, f);
    J.CountNone(back, f);
  }

  lemma {:induction false} KeptCounts(parts: seq<string>, f: char -> bool)
    requires !f('"')
    ensures CountAll(Kept(parts), f) == CountAll(parts, f)
  {
    hide Trim;
    if parts != [] {
      var p := Trim(parts[0], '"');
      TrimCounts(parts[0], f);
      KeptCounts(parts[1..], f);
      if p == "" {
        assert Kept(parts) == Kept(parts[1..]);
      } else {
        assert Kept(parts) == [p] + Kept(parts[1..]);
        assert ([p] + Kept(parts[1..]))[1..] == Kept(parts[1..]);
      }
    }
  }

  lemma {:induction false} NoSpecials(p: string)
    requires J.Count(p, IsSpecial) == 0
    ensures forall i :: 0 <= i < |p| ==> Plain(p[i])
  {
    if p != "" {
      NoSpecials(p[1..]);
      assert forall i :: 0 < i < |p| ==> p[i] == p[1..][i - 1];
    }
  }

  lemma {:induction false} NoSpecialsAnywhere(ps: seq<string>, k: nat)
    requires CountAll(ps, IsSpecial) == 0 && k < |ps|
    ensures J.Count(ps[k], IsSpecial) == 0
  {
    if k > 0 {
      NoSpecialsAnywhere(ps[1..], k - 1);
    }
  }

  /** If the parser gives the paths back then there are as many pieces as paths
      and nothing needed escaping. */
  lemma ParsedCounts(paths: seq<string>)
    requires paths != [] && Kept(Split(Inner(paths), 0)) == paths
    ensures |Split(Inner(paths), 0)| == |paths|
    ensures forall k :: 0 <= k < |paths| ==> J.Count(paths[k], IsSpecial) == 0
  {
    var parts := Split(Inner(paths), 0);
    JoinSplit(Inner(paths), 0);
    InnerIsJoin(paths);
    JoinCounts(parts, IsComma);
    JoinCounts(Quotes(paths), IsComma);
    KeptCounts(parts, IsComma);
    JoinCounts(parts, IsBackslash);
    JoinCounts(Quotes(paths), IsBackslash);
    KeptCounts(parts, IsBackslash);
    QuotesCount(paths);
    forall k | 0 <= k < |paths| ensures J.Count(paths[k], IsSpecial) == 0 {
      NoSpecialsAnywhere(paths, k);
    }
  }

  /** Keeping as many paths as there are pieces keeps every piece. */
  lemma {:induction false} KeptEach(parts: seq<string>)
    requires |Kept(parts)| == |parts|
    ensures forall k :: 0 <= k < |parts| ==> Kept(parts)[k] == Trim(parts[k], '"')
    ensures parts != [] ==> Kept(parts)[1..] == Kept(parts[1..])
  {
    if parts != [] {
      KeptEach(parts[1..]);
    }
  }

  /** A piece that trims to a plain path, taken from a text that starts with
      that path in quotes, is the path in quotes. */
  lemma PieceIsQuote(piece: string, rest: string, p: string, tail: string)
    requires p != "" && (forall i :: 0 <= i < |p| ==> p[i] != '"')
    requires piece + rest == "\"" + p + "\"" + tail && Trim(piece, '"') == p
    requires (rest == "" || rest[0] == ',') && (tail == "" || tail[0] == ',')
    ensures piece == "\"" + p + "\""
  {
    hide Trim;
    var s := piece + rest;
    var front, back := TrimExact(piece, '"');
    assert forall k :: 0 <= k < |front| ==> s[k] == front[k];
    assert s[|front|] == p[0] && s[0] == '"' && s[1] == p[0];
    assert |front| == 1;
    assert forall k :: |p| + 1 <= k < |piece| ==> s[k] == back[k - |p| - 1];
    assert forall k :: |piece| <= k < |s| ==> s[k] == rest[k - |piece|];
    assert forall k :: |p| + 2 <= k < |s| ==> s[k] == tail[k - |p| - 2];
    assert s[|p| + 1] == '"';
    assert |s| > |p| + 2 ==> s[|p| + 2] == ',';
    assert |back| == 1;
    assert front == "\"" && back == "\"";
  }

  /** Splitting off a first piece means that its commas are nested, and, when
      more follows, that it ends at depth 0. */
  lemma {:induction false} FirstPiece(a: string, b: string, depth: int)
    requires Split(a + b, depth)[0] == a
    ensures CommasNested(a, depth)
    ensures b != "" ==> b[0] == ',' && depth + Depth(a) == 0
  {
    var s := a + b;
    if a == "" {
      assert s == b;
    } else {
      assert s[1..] == a[1..] + b;
      var ps := Split(s[1..], depth + Nesting(s[0]));
      assert Split(s, depth)[0] == [s[0]] + ps[0];
      assert ps[0] == ([s[0]] + ps[0])[1..] == a[1..];
      FirstPiece(a[1..], b, depth + Nesting(s[0]));
    }
  }

  /** The first path survives. */
  lemma FirstSurvives(paths: seq<string>)
    requires paths != [] && Kept(Split(Inner(paths), 0)) == paths
    requires |Split(Inner(paths), 0)| == |paths|
    requires J.Count(paths[0], IsSpecial) == 0
    ensures Split(Inner(paths), 0)[0] == Quote(paths[0])
    ensures Survives(paths[0], |paths| == 1)
  {
    hide Trim, Split, Kept, CommasNested, Depth, Quote;
    var parts := Split(Inner(paths), 0);
    var p := paths[0];
    KeptEach(parts);
    KeptNonEmpty(parts, 0);
    NoSpecials(p);
    JoinSplit(Inner(paths), 0);
    var rest := if |parts| == 1 then "" else "," + Join(parts[1..]);
    var tail := if |paths| == 1 then "" else "," + Inner(paths[1..]);
    assert Inner(paths) == Quote(p) + tail;
    QuotePlain(p);
    PieceIsQuote(parts[0], rest, p, tail);
    FirstPiece(Quote(p), tail, 0);
  }

  lemma {:induction false} ParsedSurvive(paths: seq<string>)
    requires paths != [] && Kept(Split(Inner(paths), 0)) == paths
    requires |Split(Inner(paths), 0)| == |paths|
    requires forall k :: 0 <= k < |paths| ==> J.Count(paths[k], IsSpecial) == 0
    ensures AllSurvive(paths)
  {
    hide Trim, Split, Kept, CommasNested, Depth, Quote;
    FirstSurvives(paths);
    if |paths| > 1 {
      var p, parts := paths[0], Split(Inner(paths), 0);
      NoSpecials(p);
      QuotePlain(p);
      SplitFirst(Quote(p), Inner(paths[1..]));
      assert Inner(paths) == Quote(p) + ("," + Inner(paths[1..]));
      assert parts[1..] == Split(Inner(paths[1..]), 0);
      KeptEach(parts);
      assert forall k :: 0 <= k < |paths| - 1 ==> paths[1..][k] == paths[k + 1];
      ParsedSurvive(paths[1..]);
    } else {
      assert paths == [paths[0]];
    }
  }

  lemma {:induction false} KeptNonEmpty(parts: seq<string>, k: nat)
    requires k < |Kept(parts)|
    ensures Kept(parts)[k] != ""
  {
    var first := Trim(parts[0], '"');
    if first == "" {
      KeptNonEmpty(parts[1..], k);
    } else if k > 0 {
      KeptNonEmpty(parts[1..], k - 1);
    }
  }

  /** The scheduler reads back what the server stored exactly for lists of
      surviving paths: non-empty, nothing the encoder escapes, every comma
      inside brackets, and brackets balanced in all but the last path. */
  lemma ParseExact(paths: seq<string>)
    ensures Parse(Marshal(paths)) == paths <==> AllSurvive(paths)
  {
    var m := Marshal(paths);
    assert m[1..|m| - 1] == Inner(paths);
    if paths == [] {
      return;
    }
    if AllSurvive(paths) {
      SurvivorsParse(paths);
    }
    if Parse(m) == paths {
      ParsedCounts(paths);
      ParsedSurvive(paths);
    }
  }
}
