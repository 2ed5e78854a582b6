/** The flat file index of a snapshot and the SQL select that browses it as a
    tree (listSnapshotChildren, api/internal/server/router.go:1048-1107). */
module PathIndex {
  import opened Text

  /** One file_index row of one snapshot; a NULL mtime reads as "". */
  datatype Row = Row(path: string, size: nat, mtime: string, isDir: bool)

  /** One row of the select's result. */
  datatype Child = Child(path: string, isDir: bool, size: nat, mtime: string)

  /** Largest page the handler serves. */
  const MAX_PAGE: nat := 5000

  // ---- What `rustic ls` stores --------------------------------------------

  /** A relative path with non-empty components; U+10FFFF is a noncharacter. */
  ghost predicate WellFormedPath(p: string) {
    && p != "" && p[0] != '/' && p[|p| - 1] != '/'
    && (forall i :: 0 <= i < |p| - 1 && p[i] == '/' ==> p[i + 1] != '/')
    && (forall i :: 0 <= i < |p| ==> p[i] != MAX_CHAR)
  }

  /** The byte length runs at most one ahead of the character length. ASCII text is narrow. */
  predicate Narrow(s: string) {
    Utf8Len(s) <= |s| + 1
  }

  predicate SamePath(r: Row, q: Row) {
    r.path == q.path
  }

  predicate Under(dir: string, p: string) {
    dir + "/" <= p
  }

  /** Unique well-formed paths, and nothing stored below a plain file. */
  ghost predicate WellFormedIndex(rows: seq<Row>) {
    && (forall i {:trigger WellFormedPath(rows[i].path)} :: 0 <= i < |rows| ==> WellFormedPath(rows[i].path))
    && (forall i, j {:trigger SamePath(rows[i], rows[j])} :: 0 <= i < j < |rows| ==> !SamePath(rows[i], rows[j]))
    && (forall i, j {:trigger Under(rows[i].path, rows[j].path)} ::
          0 <= i < |rows| && 0 <= j < |rows| && Under(rows[i].path, rows[j].path) ==> rows[i].isDir)
  }

  lemma StoredPath(rows: seq<Row>, r: Row)
    requires WellFormedIndex(rows) && r in rows
    ensures WellFormedPath(r.path)
  {
    var i :| 0 <= i < |rows| && rows[i] == r;
    assert WellFormedPath(rows[i].path);
  }

  /** Paths identify rows. */
  lemma UniqueRow(rows: seq<Row>, r: Row, q: Row)
    requires WellFormedIndex(rows) && r in rows && q in rows && r.path == q.path
    ensures r == q
  {
    var i :| 0 <= i < |rows| && rows[i] == r;
    var j :| 0 <= j < |rows| && rows[j] == q;
    assert SamePath(rows[i], rows[j]) && SamePath(rows[j], rows[i]);
  }

  lemma AncestorIsDir(rows: seq<Row>, r: Row, q: Row)
    requires WellFormedIndex(rows) && r in rows && q in rows && r.path + "/" <= q.path
    ensures r.isDir
  {
    var i :| 0 <= i < |rows| && rows[i] == r;
    var j :| 0 <= j < |rows| && rows[j] == q;
    assert Under(rows[i].path, rows[j].path);
  }

  // ---- The tree ------------------------------------------------------------

  /** Position of the first '/' at or after `from`, or the length of the text. */
  function NextSlash(p: string, from: nat): (i: nat)
    requires from <= |p|
    ensures from <= i <= |p|
    ensures i < |p| ==> p[i] == '/'
    ensures forall k :: from <= k < i ==> p[k] != '/'
    decreases |p| - from
  {
    if from == |p| || p[from] == '/' then from else NextSlash(p, from + 1)
  }

  /** The immediate child of `norm` on the way to `p`: `norm` and one more component. */
  function TreeChild(norm: string, p: string): (c: string)
    requires norm <= p
    ensures norm <= c <= p
    ensures c == p || c + "/" <= p
  {
    p[..NextSlash(p, |norm|)]
  }

  /** A prefix the handler can pass: the root or a text ending in a slash. */
  predicate IsNorm(norm: string) {
    norm == "" || norm[|norm| - 1] == '/'
  }

  // ---- The SQL -------------------------------------------------------------

  /** SQLite substr(s, start) for a 1-based start. */
  function Substr(s: string, start: nat): string
    requires 1 <= start
  {
    if start - 1 <= |s| then s[start - 1..] else ""
  }

  /** SQLite substr(s, 1, n). */
  function SubstrTo(s: string, n: nat): string {
    if n <= |s| then s[..n] else s
  }

  /** SQLite instr(s, '/'): 1-based, 0 when absent. */
  function InstrSlash(s: string): (i: nat) {
    var k := NextSlash(s, 0);
    if k < |s| then k + 1 else 0
  }

  /** The child_path expression; `off` is Go's byte length of `norm` plus one. */
  function SqlChild(norm: string, p: string): string {
    var off := Utf8Len(norm) + 1;
    var i := InstrSlash(Substr(p, off));
    if i > 0 then SubstrTo(p, off + i - 2) else p
  }

  /** The WHERE clause. */
  predicate Selected(norm: string, p: string) {
    && !Less(p, norm)
    && Less(p, norm + [MAX_CHAR])
    && !("/" <= p)
  }

  /** The range test selects exactly the extensions of `norm` that do not
      continue with the largest character. */
  lemma {:induction false} RangeIsPrefix(norm: string, p: string)
    ensures !Less(p, norm) && Less(p, norm + [MAX_CHAR])
       <==> norm <= p && (|norm| < |p| ==> p[|norm|] != MAX_CHAR)
  {
    if norm == "" {
      assert p != "" ==> p[0] as int <= MAX_CHAR as int;
    } else if p != "" {
      assert (norm + [MAX_CHAR])[1..] == norm[1..] + [MAX_CHAR];
      RangeIsPrefix(norm[1..], p[1..]);
      assert norm <= p <==> norm[0] == p[0] && norm[1..] <= p[1..] by {
        assert norm == [norm[0]] + norm[1..] && p == [p[0]] + p[1..];
      }
    }
  }

  /** The SQL cuts at the first slash that is at least `Utf8Len(norm)` characters in. */
  lemma SqlChildCut(norm: string, p: string)
    ensures SqlChild(norm, p) == if Utf8Len(norm) <= |p| then p[..NextSlash(p, Utf8Len(norm))] else p
  {
    if Utf8Len(norm) <= |p| {
    }
  }

  /** The child that the select shows for a path lies strictly below the prefix,
      at the path itself or at one of its slashes, and is its own child. */
  lemma SqlChildBelow(norm: string, p: string)
    requires IsNorm(norm) && WellFormedPath(p) && norm <= p
    ensures var k := SqlChild(norm, p);
      norm <= k <= p && |norm| < |k| && (k == p || k + "/" <= p) && SqlChild(norm, k) == k
  {
    var k := SqlChild(norm, p);
    SqlChildCut(norm, p);
    SqlChildCut(norm, k);
    assert |norm| < |p| && p[|norm|] != '/';
    assert k != p ==> |k| == NextSlash(p, Utf8Len(norm));
    if Utf8Len(norm) <= |k| {
      assert forall i :: Utf8Len(norm) <= i < |k| ==> k[i] == p[i] != '/';
    }
  }

  /** A path above `p` that the select shows for `q` is where it cuts `p`, unless
      it is `q` itself and lies within the prefix's bytes. */
  lemma SqlChildAbove(norm: string, q: string, p: string)
    requires norm <= q && norm <= p && SqlChild(norm, q) + "/" <= p
    ensures SqlChild(norm, p) == SqlChild(norm, q) || (SqlChild(norm, q) == q && |q| < Utf8Len(norm))
  {
    var k, u := SqlChild(norm, q), Utf8Len(norm);
    SqlChildCut(norm, q);
    SqlChildCut(norm, p);
    assert p[|k|] == (k + "/")[|k|] == '/';
    if u <= |k| {
      assert forall i :: u <= i < |k| ==> p[i] == k[i] == q[i] != '/';
      assert NextSlash(p, u) == |k|;
      assert p[..|k|] == k;
    }
  }

  /** The path's first component below the prefix is not shorter than the bytes
      that the prefix has in excess of its characters, unless it is the last. */
  predicate Fits(norm: string, p: string)
    requires norm <= p
  {
    TreeChild(norm, p) == p || Utf8Len(norm) <= |TreeChild(norm, p)|
  }

  /** For any one path, exactly when the select's child is the tree's. */
  lemma SqlChildFits(norm: string, p: string)
    requires IsNorm(norm) && WellFormedPath(p) && norm <= p
    ensures SqlChild(norm, p) == TreeChild(norm, p) <==> Fits(norm, p)
  {
    SqlChildCut(norm, p);
    assert |norm| < |p| && p[|norm|] != '/';
    var j, u := NextSlash(p, |norm|), Utf8Len(norm);
    if u <= |p| {
      assert j < u ==> j != NextSlash(p, u);
    }
  }

  /** Exactly which prefixes the byte-length offset serves: those with at most
      one byte more than they have characters. With two or more extra bytes a
      one-letter directory is skipped over and its content listed as its own child. */
  lemma SqlChildExact(dir: string)
    requires WellFormedPath(dir)
    ensures (forall p :: WellFormedPath(p) && dir + "/" <= p ==> SqlChild(dir + "/", p) == TreeChild(dir + "/", p))
       <==> Narrow(dir + "/")
  {
    var norm := dir + "/";
    if Narrow(norm) {
      forall p | WellFormedPath(p) && norm <= p
        ensures SqlChild(norm, p) == TreeChild(norm, p)
      {
        SqlChildFits(norm, p);
        assert |norm| < |p| && p[|norm|] != '/';
      }
    } else {
      var p := norm + "a/b";
      assert WellFormedPath(p) by {
        assert forall i :: 0 <= i < |dir| ==> p[i] == dir[i];
      }
      assert NextSlash(p, |norm|) == |norm| + 1 by {
        assert p[|norm|] == 'a' && p[|norm| + 1] == '/';
      }
      SqlChildCut(norm, p);
      assert TreeChild(norm, p) != p;
      if Utf8Len(norm) <= |p| {
        assert NextSlash(p, Utf8Len(norm)) == |p|;
      }
      assert SqlChild(norm, p) == p;
    }
  }

  // ---- GROUP BY child_path -------------------------------------------------

  function Filter(rows: seq<Row>, norm: string): seq<Row> {
    if rows == [] then []
    else if Selected(norm, rows[0].path) then [rows[0]] + Filter(rows[1..], norm)
    else Filter(rows[1..], norm)
  }

  lemma {:induction false} FilterMembers(rows: seq<Row>, norm: string)
    ensures forall x :: x in Filter(rows, norm) <==> x in rows && Selected(norm, x.path)
  {
    if rows != [] {
      FilterMembers(rows[1..], norm);
      assert forall r :: r in rows <==> r == rows[0] || r in rows[1..];
    }
  }

  /** The distinct group keys. */
  function Keys(rows: seq<Row>, norm: string): seq<string> {
    if rows == [] then []
    else
      var rest := Keys(rows[1..], norm);
      var k := SqlChild(norm, rows[0].path);
      if k in rest then rest else [k] + rest
  }

  ghost predicate Distinct(ks: seq<string>) {
    forall i, j :: 0 <= i < j < |ks| ==> ks[i] != ks[j]
  }

  lemma {:induction false} KeysAreChildren(rows: seq<Row>, norm: string)
    ensures forall k :: k in Keys(rows, norm) <==> exists r :: r in rows && SqlChild(norm, r.path) == k
    ensures Distinct(Keys(rows, norm))
  {
    if rows != [] {
      var rest, k := Keys(rows[1..], norm), SqlChild(norm, rows[0].path);
      KeysAreChildren(rows[1..], norm);
      assert forall r :: r in rows <==> r == rows[0] || r in rows[1..];
      assert k !in rest ==> Distinct([k] + rest);
    }
  }

  /** MAX(CASE WHEN path = child_path THEN is_dir ELSE 1 END) over one group. */
  predicate GroupIsDir(rows: seq<Row>, norm: string, k: string) {
    exists r :: r in rows && SqlChild(norm, r.path) == k && (r.path == k ==> r.isDir)
  }

  /** MAX(CASE WHEN path = child_path THEN size ELSE 0 END) over one group. */
  function GroupSize(rows: seq<Row>, norm: string, k: string): (n: nat)
    ensures forall r :: r in rows && r.path == k && SqlChild(norm, k) == k ==> r.size <= n
    ensures n == 0 || exists r :: r in rows && r.path == k && r.size == n
  {
    if rows == [] then 0
    else
      var rest := GroupSize(rows[1..], norm, k);
      assert forall r :: r in rows <==> r == rows[0] || r in rows[1..];
      if SqlChild(norm, rows[0].path) == k && rows[0].path == k && rest < rows[0].size
      then rows[0].size else rest
  }

  /** MAX(CASE WHEN path = child_path THEN COALESCE(mtime, '') ELSE '' END) over one group. */
  function GroupMtime(rows: seq<Row>, norm: string, k: string): (m: string)
    ensures m == "" || exists r :: r in rows && r.path == k && r.mtime == m
  {
    if rows == [] then ""
    else
      var rest := GroupMtime(rows[1..], norm, k);
      assert forall r :: r in rows <==> r == rows[0] || r in rows[1..];
      if SqlChild(norm, rows[0].path) == k && rows[0].path == k && Less(rest, rows[0].mtime)
      then rows[0].mtime else rest
  }

  function Group(rows: seq<Row>, norm: string, k: string): Child {
    Child(k, GroupIsDir(rows, norm, k), GroupSize(rows, norm, k), GroupMtime(rows, norm, k))
  }

  function Groups(rows: seq<Row>, norm: string, ks: seq<string>): seq<Child> {
    seq(|ks|, i requires 0 <= i < |ks| => Group(rows, norm, ks[i]))
  }

  // ---- ORDER BY is_dir DESC, path -------------------------------------------

  predicate Before(a: Child, b: Child) {
    if a.isDir != b.isDir then a.isDir else Less(a.path, b.path)
  }

  ghost predicate Sorted(cs: seq<Child>) {
    forall i, j :: 0 <= i < j < |cs| ==> Before(cs[i], cs[j])
  }

  function Insert(c: Child, cs: seq<Child>): seq<Child> {
    if cs == [] then [c]
    else if Before(c, cs[0]) then [c] + cs
    else [cs[0]] + Insert(c, cs[1..])
  }

  function Sort(cs: seq<Child>): seq<Child> {
    if cs == [] then [] else Insert(cs[0], Sort(cs[1..]))
  }

  lemma {:induction false} InsertMembers(c: Child, cs: seq<Child>)
    ensures forall x :: x in Insert(c, cs) <==> x == c || x in cs
  {
    if cs != [] {
      InsertMembers(c, cs[1..]);
      assert forall x :: x in cs <==> x == cs[0] || x in cs[1..];
    }
  }

  lemma {:induction false} SortMembers(cs: seq<Child>)
    ensures forall x :: x in Sort(cs) <==> x in cs
  {
    if cs != [] {
      SortMembers(cs[1..]);
      InsertMembers(cs[0], Sort(cs[1..]));
      assert forall x :: x in cs <==> x == cs[0] || x in cs[1..];
    }
  }

  lemma BeforeTransitive(a: Child, b: Child, c: Child)
    requires Before(a, b) && Before(b, c)
    ensures Before(a, c)
  {
    if a.isDir == b.isDir == c.isDir {
      LessTransitive(a.path, b.path, c.path);
    }
  }

  lemma {:induction false} InsertSorted(c: Child, cs: seq<Child>)
    requires Sorted(cs)
    requires forall x :: x in cs ==> x.path != c.path
    ensures Sorted(Insert(c, cs))
  {
    if cs != [] {
      if Before(c, cs[0]) {
        forall j | 1 <= j < |cs| ensures Before(c, cs[j]) {
          BeforeTransitive(c, cs[0], cs[j]);
        }
      } else {
        LessTotal(c.path, cs[0].path);
        InsertSorted(c, cs[1..]);
        InsertMembers(c, cs[1..]);
        var r := Insert(c, cs[1..]);
        forall j | 0 <= j < |r| ensures Before(cs[0], r[j]) {
          assert r[j] in r;
          if r[j] != c {
            var k :| 0 <= k < |cs[1..]| && cs[1..][k] == r[j];
          }
        }
      }
    }
  }

  lemma {:induction false} SortSorted(cs: seq<Child>)
    requires forall i, j :: 0 <= i < j < |cs| ==> cs[i].path != cs[j].path
    ensures Sorted(Sort(cs))
  {
    if cs != [] {
      SortSorted(cs[1..]);
      SortMembers(cs[1..]);
      InsertSorted(cs[0], Sort(cs[1..]));
    }
  }

  // ---- The select ----------------------------------------------------------

  /** All children of `norm`, before LIMIT and OFFSET. */
  function Listing(rows: seq<Row>, norm: string): seq<Child> {
    var sel := Filter(rows, norm);
    Sort(Groups(sel, norm, Keys(sel, norm)))
  }

  /** The child the tree has at `k`: a directory when its own row says so or
      when something is stored deeper, with its own row's size and time. */
  ghost predicate IsTreeChild(rows: seq<Row>, norm: string, c: Child) {
    && (exists r :: r in rows && norm <= r.path && TreeChild(norm, r.path) == c.path)
    && (c.isDir <==> exists r :: r in rows && ((r.path == c.path && r.isDir) || c.path + "/" <= r.path))
    && (forall r :: r in rows && r.path == c.path ==> c.size == r.size && c.mtime == r.mtime)
    && ((forall r :: r in rows ==> r.path != c.path) ==> c.size == 0 && c.mtime == "")
  }

  /** What the select shows at `k`: a directory when a row of the group is one or
      lies deeper, with the size and time of the path's own row. */
  ghost predicate IsListed(rows: seq<Row>, norm: string, c: Child) {
    && (exists r :: r in rows && norm <= r.path && SqlChild(norm, r.path) == c.path)
    && (c.isDir <==>
      exists r :: r in rows && norm <= r.path && SqlChild(norm, r.path) == c.path && (r.path == c.path ==> r.isDir))
    && (forall r :: r in rows && r.path == c.path ==> c.size == r.size && c.mtime == r.mtime)
    && ((forall r :: r in rows ==> r.path != c.path) ==> c.size == 0 && c.mtime == "")
  }

  /** Under a well-formed index the select sees exactly the rows below `norm`. */
  lemma SelectedBelow(rows: seq<Row>, norm: string, r: Row)
    requires WellFormedIndex(rows) && r in rows
    ensures Selected(norm, r.path) <==> norm <= r.path
  {
    RangeIsPrefix(norm, r.path);
    StoredPath(rows, r);
  }

  /** Every row below a path that the tree shows as a child falls in that child's group. */
  lemma DeeperInGroup(norm: string, k: string, p: string, q: string)
    requires norm <= q && TreeChild(norm, q) == k
    requires WellFormedPath(q) && IsNorm(norm)
    requires p == k || k + "/" <= p
    ensures norm <= p && TreeChild(norm, p) == k
  {
    assert |norm| < |q| && q[|norm|] != '/';
    assert NextSlash(q, |norm|) == |k|;
    assert norm <= k <= p;
    assert forall i :: |norm| <= i < |k| ==> p[i] == k[i] == q[i] && p[i] != '/';
    if p != k {
      assert (k + "/")[|k|] == '/' == p[|k|];
    }
    assert NextSlash(p, |norm|) == |k|;
  }

  /** A group is a directory exactly if it holds a directory's own row or a row
      that lies deeper. */
  lemma GroupDirExact(rows: seq<Row>, norm: string, r: Row)
    requires WellFormedIndex(rows) && IsNorm(norm) && r in rows && norm <= r.path
    ensures var k := SqlChild(norm, r.path);
      GroupIsDir(Filter(rows, norm), norm, k) <==>
      exists x :: x in rows && norm <= x.path && SqlChild(norm, x.path) == k
        && ((x.path == k && x.isDir) || k + "/" <= x.path)
  {
    var k := SqlChild(norm, r.path);
    FilterMembers(rows, norm);
    forall x | x in rows
      ensures Selected(norm, x.path) <==> norm <= x.path
      ensures norm <= x.path && SqlChild(norm, x.path) == k ==> (x.path == k || k + "/" <= x.path)
    {
      SelectedBelow(rows, norm, x);
      if norm <= x.path {
        StoredPath(rows, x);
        SqlChildBelow(norm, x.path);
      }
    }
  }

  lemma GroupOwnFields(rows: seq<Row>, norm: string, r: Row)
    requires WellFormedIndex(rows) && IsNorm(norm) && r in rows && norm <= r.path
    ensures var k, sel := SqlChild(norm, r.path), Filter(rows, norm);
      && (forall x :: x in rows && x.path == k ==>
        GroupSize(sel, norm, k) == x.size && GroupMtime(sel, norm, k) == x.mtime)
      && ((forall x :: x in rows ==> x.path != k) ==> GroupSize(sel, norm, k) == 0 && GroupMtime(sel, norm, k) == "")
  {
    var k, sel := SqlChild(norm, r.path), Filter(rows, norm);
    FilterMembers(rows, norm);
    StoredPath(rows, r);
    SqlChildBelow(norm, r.path);
    forall x | x in rows && x.path == k
      ensures GroupSize(sel, norm, k) == x.size && GroupMtime(sel, norm, k) == x.mtime
    {
      OwnRow(rows, norm, x);
    }
  }

  lemma GroupIsListed(rows: seq<Row>, norm: string, r: Row)
    requires WellFormedIndex(rows) && IsNorm(norm) && r in rows && norm <= r.path
    ensures IsListed(rows, norm, Group(Filter(rows, norm), norm, SqlChild(norm, r.path)))
  {
    var k, sel := SqlChild(norm, r.path), Filter(rows, norm);
    var isDir, size, mtime := GroupIsDir(sel, norm, k), GroupSize(sel, norm, k), GroupMtime(sel, norm, k);
    FilterMembers(rows, norm);
    forall x | x in rows ensures Selected(norm, x.path) <==> norm <= x.path {
      SelectedBelow(rows, norm, x);
    }
    GroupOwnFields(rows, norm, r);
    assert IsListed(rows, norm, Child(k, isDir, size, mtime));
  }

  /** A child with a row of its own takes that row's size and time. */
  lemma OwnRow(rows: seq<Row>, norm: string, x: Row)
    requires WellFormedIndex(rows) && IsNorm(norm) && x in rows && norm <= x.path
    requires SqlChild(norm, x.path) == x.path
    ensures GroupSize(Filter(rows, norm), norm, x.path) == x.size
    ensures GroupMtime(Filter(rows, norm), norm, x.path) == x.mtime
  {
    var sel := Filter(rows, norm);
    FilterMembers(rows, norm);
    SelectedBelow(rows, norm, x);
    assert x in sel;
    forall q | q in sel && q.path == x.path ensures q == x {
      UniqueRow(rows, q, x);
    }
    OwnMtime(sel, norm, x);
  }

  lemma {:induction false} OwnMtime(sel: seq<Row>, norm: string, x: Row)
    requires x in sel && SqlChild(norm, x.path) == x.path
    requires forall q :: q in sel && q.path == x.path ==> q == x
    ensures GroupMtime(sel, norm, x.path) == x.mtime
  {
    var rest := GroupMtime(sel[1..], norm, x.path);
    if x in sel[1..] {
      OwnMtime(sel[1..], norm, x);
      LessIrreflexive(x.mtime);
    } else {
      assert sel[0] == x;
      assert rest == "";
      LessTotal("", x.mtime);
    }
  }

  lemma ListingMember(rows: seq<Row>, norm: string, c: Child)
    requires WellFormedIndex(rows) && IsNorm(norm) && c in Listing(rows, norm)
    ensures c == Group(Filter(rows, norm), norm, c.path)
    ensures IsListed(rows, norm, c)
  {
    var sel := Filter(rows, norm);
    var ks := Keys(sel, norm);
    var gs := Groups(sel, norm, ks);
    SortMembers(gs);
    KeysAreChildren(sel, norm);
    FilterMembers(rows, norm);
    var i :| 0 <= i < |gs| && gs[i] == c;
    assert ks[i] in ks;
    var r :| r in sel && SqlChild(norm, r.path) == ks[i];
    SelectedBelow(rows, norm, r);
    GroupIsListed(rows, norm, r);
  }

  lemma ListingShows(rows: seq<Row>, norm: string, r: Row)
    requires WellFormedIndex(rows) && IsNorm(norm) && r in rows && norm <= r.path
    ensures exists c :: c in Listing(rows, norm) && c.path == SqlChild(norm, r.path)
  {
    var sel := Filter(rows, norm);
    var ks := Keys(sel, norm);
    var gs := Groups(sel, norm, ks);
    SortMembers(gs);
    KeysAreChildren(sel, norm);
    FilterMembers(rows, norm);
    SelectedBelow(rows, norm, r);
    assert SqlChild(norm, r.path) in ks;
    var i :| 0 <= i < |ks| && ks[i] == SqlChild(norm, r.path);
    assert gs[i] in gs;
  }

  lemma ListingSorted(rows: seq<Row>, norm: string)
    ensures Sorted(Listing(rows, norm))
  {
    var sel := Filter(rows, norm);
    var ks := Keys(sel, norm);
    var gs := Groups(sel, norm, ks);
    KeysAreChildren(sel, norm);
    forall i, j | 0 <= i < j < |gs| ensures gs[i].path != gs[j].path {
      assert gs[i].path == ks[i] && gs[j].path == ks[j] && ks[i] != ks[j];
    }
    SortSorted(gs);
  }

  /** For any prefix of any well-formed index: the result is strictly ordered
      (directories first, then by path) without repeats, and holds exactly the
      children that the select cuts the paths below `norm` to. */
  lemma ListingHolds(rows: seq<Row>, norm: string)
    requires WellFormedIndex(rows) && IsNorm(norm)
    ensures var cs := Listing(rows, norm); forall i, j :: 0 <= i < j < |cs| ==>
      (cs[i].isDir && !cs[j].isDir) || (cs[i].isDir == cs[j].isDir && Less(cs[i].path, cs[j].path))
    ensures Sorted(Listing(rows, norm))
    ensures forall c :: c in Listing(rows, norm) ==> IsListed(rows, norm, c)
    ensures forall r :: r in rows && norm <= r.path ==>
              exists c :: c in Listing(rows, norm) && c.path == SqlChild(norm, r.path)
    ensures forall c, d :: c in Listing(rows, norm) && d in Listing(rows, norm) && c.path == d.path ==> c == d
  {
    ListingSorted(rows, norm);
    forall c | c in Listing(rows, norm)
      ensures IsListed(rows, norm, c) && c == Group(Filter(rows, norm), norm, c.path)
    {
      ListingMember(rows, norm, c);
    }
    forall r | r in rows && norm <= r.path
      ensures exists c :: c in Listing(rows, norm) && c.path == SqlChild(norm, r.path)
    {
      ListingShows(rows, norm, r);
    }
  }

  /** Every path below the prefix fits it. */
  ghost predicate AllFit(rows: seq<Row>, norm: string) {
    forall r :: r in rows && norm <= r.path ==> Fits(norm, r.path)
  }

  /** The naive tree's children of `norm`, each once and in order. */
  ghost predicate ListsTree(rows: seq<Row>, norm: string) {
    && Sorted(Listing(rows, norm))
    && (forall c :: c in Listing(rows, norm) ==> IsTreeChild(rows, norm, c))
    && (forall r :: r in rows && norm <= r.path ==>
          exists c :: c in Listing(rows, norm) && c.path == TreeChild(norm, r.path))
    && (forall c, d :: c in Listing(rows, norm) && d in Listing(rows, norm) && c.path == d.path ==> c == d)
  }

  lemma ListedIsTreeChild(rows: seq<Row>, norm: string, c: Child)
    requires WellFormedIndex(rows) && IsNorm(norm) && AllFit(rows, norm) && IsListed(rows, norm, c)
    ensures IsTreeChild(rows, norm, c)
  {
    hide SqlChild, TreeChild, Fits;
    forall x | x in rows && norm <= x.path ensures SqlChild(norm, x.path) == TreeChild(norm, x.path) {
      StoredPath(rows, x);
      SqlChildFits(norm, x.path);
    }
    var r :| r in rows && norm <= r.path && SqlChild(norm, r.path) == c.path;
    StoredPath(rows, r);
    forall x | x in rows && (x.path == c.path || c.path + "/" <= x.path)
      ensures norm <= x.path && SqlChild(norm, x.path) == c.path
    {
      DeeperInGroup(norm, c.path, x.path, r.path);
    }
    forall x | x in rows && norm <= x.path && SqlChild(norm, x.path) == c.path
      ensures x.path == c.path || c.path + "/" <= x.path
    {
    }
    hide WellFormedIndex, AllFit;
  }

  /** The select is the tree exactly if every path below the prefix fits it. */
  lemma ListingIsTree(rows: seq<Row>, norm: string)
    requires WellFormedIndex(rows) && IsNorm(norm)
    ensures ListsTree(rows, norm) <==> AllFit(rows, norm)
  {
    hide Listing, SqlChild, TreeChild, Fits, WellFormedIndex, IsListed, IsTreeChild, Sorted;
    ListingHolds(rows, norm);
    if AllFit(rows, norm) {
      forall c | c in Listing(rows, norm) ensures IsTreeChild(rows, norm, c) {
        ListedIsTreeChild(rows, norm, c);
      }
      forall r | r in rows && norm <= r.path
        ensures exists c :: c in Listing(rows, norm) && c.path == TreeChild(norm, r.path)
      {
        StoredPath(rows, r);
        SqlChildFits(norm, r.path);
      }
    } else {
      var r :| r in rows && norm <= r.path && !Fits(norm, r.path);
      StoredPath(rows, r);
      SqlChildFits(norm, r.path);
      var c :| c in Listing(rows, norm) && c.path == SqlChild(norm, r.path);
      NotATreeChild(rows, norm, r, c);
    }
  }

  /** A child that is cut too late has a slash no tree child has. */
  lemma NotATreeChild(rows: seq<Row>, norm: string, r: Row, c: Child)
    requires WellFormedIndex(rows) && IsNorm(norm) && r in rows && norm <= r.path && !Fits(norm, r.path)
    requires c.path == SqlChild(norm, r.path)
    ensures !IsTreeChild(rows, norm, c)
  {
    StoredPath(rows, r);
    SqlChildCut(norm, r.path);
    var j := |TreeChild(norm, r.path)|;
    assert |norm| <= j < |c.path| && c.path[j] == r.path[j] == '/';
    forall q | q in rows && norm <= q.path ensures TreeChild(norm, q.path) != c.path {
      assert forall i :: |norm| <= i < |TreeChild(norm, q.path)| ==> TreeChild(norm, q.path)[i] == q.path[i] != '/';
    }
  }

  /** A prefix with at most one byte more than characters fits every path. */
  lemma NarrowFits(rows: seq<Row>, norm: string)
    requires WellFormedIndex(rows) && IsNorm(norm) && Narrow(norm)
    ensures AllFit(rows, norm)
  {
    forall r | r in rows && norm <= r.path ensures Fits(norm, r.path) {
      StoredPath(rows, r);
      assert |norm| < |r.path| && r.path[|norm|] != '/';
    }
  }

  // ---- LIMIT and OFFSET ----------------------------------------------------

  function Clamp(lo: int, hi: int, x: int): (r: int)
    requires lo <= hi
    ensures lo <= r <= hi && (lo <= x <= hi ==> r == x) && (x < lo ==> r == lo) && (hi < x ==> r == hi)
  {
    if x < lo then lo else if x > hi then hi else x
  }

  function Page(cs: seq<Child>, limit: nat, offset: nat): (p: seq<Child>)
    ensures |p| <= limit
    ensures |p| < limit ==> |cs| <= offset + |p|
  {
    if |cs| <= offset then []
    else if |cs| <= offset + limit then cs[offset..]
    else cs[offset..offset + limit]
  }

  /** The first `n` pages, one after the other. */
  function Pages(cs: seq<Child>, limit: nat, n: nat): seq<Child> {
    if n == 0 then [] else Pages(cs, limit, n - 1) + Page(cs, limit, (n - 1) * limit)
  }

  /** One page more, from row `from` on. */
  lemma PageExtends(cs: seq<Child>, limit: nat, from: nat)
    ensures (if from <= |cs| then cs[..from] else cs) + Page(cs, limit, from)
         == if from + limit <= |cs| then cs[..from + limit] else cs
  {
  }

  /** Pages neither overlap nor skip: put together they are the listing. */
  lemma {:induction false} PagesArePrefix(cs: seq<Child>, limit: nat, n: nat)
    ensures Pages(cs, limit, n) == if n * limit <= |cs| then cs[..n * limit] else cs
  {
    hide Page;
    if n > 0 {
      PagesArePrefix(cs, limit, n - 1);
      PageExtends(cs, limit, (n - 1) * limit);
      assert n * limit == (n - 1) * limit + limit;
    } else {
      assert n * limit == 0;
    }
  }

  /** The rows.Next loop; every row carries the windowed COUNT(*). */
  method ScanRows(result: seq<Child>, count: nat) returns (children: seq<Child>, total: nat)
    ensures children == result
    ensures total == if result == [] then 0 else count
  {
    children, total := [], 0;
    for i := 0 to |result|
      invariant children == result[..i]
      invariant total == if i == 0 then 0 else count
    {
      total := count;
      children := children + [result[i]];
    }
  }

  /** The Go function: clamps its arguments, runs the select and scans the rows.
      `total` is the child count on every page that has a row and 0 on a page
      past the end. */
  method ListSnapshotChildren(rows: seq<Row>, norm: string, limit: int, offset: int)
    returns (children: seq<Child>, total: nat)
    ensures children == Page(Listing(rows, norm), Clamp(1, MAX_PAGE, limit), if offset < 0 then 0 else offset)
    ensures total == if children == [] then 0 else |Listing(rows, norm)|
  {
    var lim := if limit < 1 then 1 else limit;
    if lim > MAX_PAGE {
      lim := MAX_PAGE;
    }
    var off := if offset < 0 then 0 else offset;
    var all := Listing(rows, norm);
    children, total := ScanRows(Page(all, lim, off), |all|);
  }
}
