/** The restore dialog's recursive, paged size computation over the browsing
    API (frontend/components/RestoreConfirmDialog.tsx:18-58). */
module SubtreeSizer {
  import opened Text
  import opened PathIndex

  // ---- Sums over the index -------------------------------------------------

  /** Sum of `f` over the first `n` rows. */
  ghost function Sum(rows: seq<Row>, f: Row -> nat, n: nat): nat
    requires n <= |rows|
  {
    if n == 0 then 0 else Sum(rows, f, n - 1) + f(rows[n - 1])
  }

  ghost function Total(rows: seq<Row>, f: Row -> nat): nat {
    Sum(rows, f, |rows|)
  }

  lemma {:induction false} SumAdds(rows: seq<Row>, f: Row -> nat, g: Row -> nat, h: Row -> nat, n: nat)
    requires n <= |rows| && forall r :: r in rows ==> h(r) == f(r) + g(r)
    ensures Sum(rows, h, n) == Sum(rows, f, n) + Sum(rows, g, n)
  {
    if n > 0 {
      SumAdds(rows, f, g, h, n - 1);
      assert rows[n - 1] in rows;
    }
  }

  lemma TotalSum(rows: seq<Row>, f: Row -> nat, g: Row -> nat, h: Row -> nat)
    requires forall r :: r in rows ==> h(r) == f(r) + g(r)
    ensures Total(rows, h) == Total(rows, f) + Total(rows, g)
  {
    SumAdds(rows, f, g, h, |rows|);
  }

  /** Where one sum dominates another, they agree only if every term does. */
  lemma {:induction false} SumDominated(rows: seq<Row>, f: Row -> nat, g: Row -> nat, n: nat)
    requires n <= |rows| && forall r :: r in rows ==> f(r) <= g(r)
    ensures Sum(rows, f, n) <= Sum(rows, g, n)
    ensures Sum(rows, f, n) == Sum(rows, g, n) <==> forall i :: 0 <= i < n ==> f(rows[i]) == g(rows[i])
  {
    if n > 0 {
      SumDominated(rows, f, g, n - 1);
      assert rows[n - 1] in rows;
    }
  }

  lemma TotalDominated(rows: seq<Row>, f: Row -> nat, g: Row -> nat)
    requires forall r :: r in rows ==> f(r) <= g(r)
    ensures Total(rows, f) <= Total(rows, g)
    ensures Total(rows, f) == Total(rows, g) <==> forall r :: r in rows ==> f(r) == g(r)
  {
    SumDominated(rows, f, g, |rows|);
    assert forall i :: 0 <= i < |rows| ==> rows[i] in rows;
  }

  lemma TotalEqual(rows: seq<Row>, f: Row -> nat, g: Row -> nat)
    requires forall r :: r in rows ==> f(r) == g(r)
    ensures Total(rows, f) == Total(rows, g)
  {
    TotalDominated(rows, f, g);
  }

  /** A sum with a single contributing row. */
  lemma {:induction false} SumSingle(rows: seq<Row>, f: Row -> nat, k: nat, n: nat)
    requires n <= |rows| && k < |rows|
    requires forall i :: 0 <= i < |rows| && i != k ==> f(rows[i]) == 0
    ensures Sum(rows, f, n) == if k < n then f(rows[k]) else 0
  {
    if n > 0 {
      SumSingle(rows, f, k, n - 1);
    }
  }

  lemma TotalSingle(rows: seq<Row>, f: Row -> nat, x: Row)
    requires WellFormedIndex(rows) && x in rows
    requires forall r :: r in rows && r.path != x.path ==> f(r) == 0
    ensures Total(rows, f) == f(x)
  {
    var k :| 0 <= k < |rows| && rows[k] == x;
    forall i | 0 <= i < |rows| && i != k ensures f(rows[i]) == 0 {
      assert !SamePath(rows[if i < k then i else k], rows[if i < k then k else i]);
      assert rows[i] in rows;
    }
    SumSingle(rows, f, k, |rows|);
  }

  lemma {:induction false} SumZero(rows: seq<Row>, f: Row -> nat, n: nat)
    requires n <= |rows| && forall r :: r in rows ==> f(r) == 0
    ensures Sum(rows, f, n) == 0
  {
    if n > 0 {
      SumZero(rows, f, n - 1);
      assert rows[n - 1] in rows;
    }
  }

  lemma TotalZero(rows: seq<Row>, f: Row -> nat)
    requires forall r :: r in rows ==> f(r) == 0
    ensures Total(rows, f) == 0
  {
    SumZero(rows, f, |rows|);
  }

  /** What a file adds to each of the two accumulators. */
  ghost function One(): (w: Row -> nat)
    ensures forall r :: w(r) == 1
  {
    (r: Row) => 1
  }

  ghost function Bytes(): (w: Row -> nat)
    ensures forall r :: w(r) == r.size
  {
    (r: Row) => r.size
  }

  /** The naive tree: `w` of every plain file strictly below the prefix. */
  ghost function Below(norm: string, w: Row -> nat): Row -> nat {
    (r: Row) => if !r.isDir && norm <= r.path then w(r) else 0
  }

  // ---- How often a walk meets a file --------------------------------------------

  ghost function AsRow(c: Child): Row {
    Row(c.path, c.size, c.mtime, c.isDir)
  }

  /** Walking the child reaches the file: a directory above it. */
  predicate LeadsTo(norm: string, c: Child, f: string) {
    c.isDir && norm <= c.path && c.path + "/" <= f
  }

  predicate IsFile(c: Child, f: string) {
    !c.isDir && c.path == f
  }

  /** How often walking the first `n` children of `norm` meets the file `f`. */
  ghost function Visits(rows: seq<Row>, norm: string, f: string, n: nat): nat
    requires n <= |Listing(rows, norm)|
    decreases if |norm| <= |f| then |f| - |norm| else 0, n
  {
    if n == 0 then 0
    else
      var c := Listing(rows, norm)[n - 1];
      Visits(rows, norm, f, n - 1)
        + (if LeadsTo(norm, c, f) then Reach(rows, c.path + "/", f) else if IsFile(c, f) then 1 else 0)
  }

  /** How often walking `norm` meets the file `f`. */
  ghost function Reach(rows: seq<Row>, norm: string, f: string): nat
    decreases if |norm| <= |f| then |f| - |norm| else 0, |Listing(rows, norm)| + 1
  {
    Visits(rows, norm, f, |Listing(rows, norm)|)
  }

  function Scaled(n: nat, x: nat): nat {
    n * x
  }

  /** What a walk adds: the weight of every file once for each time it is met. */
  ghost function Walked(rows: seq<Row>, norm: string, w: Row -> nat): Row -> nat {
    (r: Row) => if r.isDir then 0 else Scaled(Reach(rows, norm, r.path), w(r))
  }

  /** What walking one child adds. */
  ghost function Share(rows: seq<Row>, w: Row -> nat, c: Child): nat {
    if c.isDir then Total(rows, Walked(rows, c.path + "/", w)) else w(AsRow(c))
  }

  /** What walking the first `n` children adds. */
  ghost function Shares(rows: seq<Row>, w: Row -> nat, cs: seq<Child>, n: nat): nat
    requires n <= |cs|
  {
    if n == 0 then 0 else Shares(rows, w, cs, n - 1) + Share(rows, w, cs[n - 1])
  }

  ghost function Met(rows: seq<Row>, norm: string, n: nat, w: Row -> nat): Row -> nat
    requires n <= |Listing(rows, norm)|
  {
    (r: Row) => if r.isDir then 0 else Scaled(Visits(rows, norm, r.path, n), w(r))
  }

  /** What one child contributes. */
  ghost function MetIn(rows: seq<Row>, norm: string, c: Child, w: Row -> nat): Row -> nat {
    (r: Row) =>
      if r.isDir then 0
      else if LeadsTo(norm, c, r.path) then Scaled(Reach(rows, c.path + "/", r.path), w(r))
      else if IsFile(c, r.path) then w(r)
      else 0
  }

  /** Only files below a prefix are met. */
  lemma {:induction false} MeetsBelow(rows: seq<Row>, norm: string, f: string, n: nat)
    requires WellFormedIndex(rows) && IsNorm(norm) && n <= |Listing(rows, norm)| && !(norm <= f)
    ensures Visits(rows, norm, f, n) == 0
  {
    hide Listing;
    if n > 0 {
      var c := Listing(rows, norm)[n - 1];
      MeetsBelow(rows, norm, f, n - 1);
      ListedBelow(rows, norm, c);
    }
  }

  /** A listed child, seen from its group. */
  lemma ListedBelow(rows: seq<Row>, norm: string, c: Child)
    requires WellFormedIndex(rows) && IsNorm(norm) && c in Listing(rows, norm)
    ensures norm <= c.path && |norm| < |c.path| && SqlChild(norm, c.path) == c.path
    ensures exists r :: r in rows && c.path <= r.path && (c.path == r.path || c.path + "/" <= r.path)
    ensures !c.isDir ==> AsRow(c) in rows
  {
    hide Listing, SqlChild;
    ListingHolds(rows, norm);
    var r :| r in rows && norm <= r.path && SqlChild(norm, r.path) == c.path;
    StoredPath(rows, r);
    SqlChildBelow(norm, r.path);
    if !c.isDir {
      assert r.path == c.path && AsRow(c) == r;
    }
  }

  lemma ChildAdds(rows: seq<Row>, norm: string, w: Row -> nat, c: Child)
    requires WellFormedIndex(rows) && IsNorm(norm) && c in Listing(rows, norm)
    ensures Share(rows, w, c) == Total(rows, MetIn(rows, norm, c, w))
  {
    hide Listing;
    ListedBelow(rows, norm, c);
    if c.isDir {
      var sub := c.path + "/";
      forall r | r in rows ensures Walked(rows, sub, w)(r) == MetIn(rows, norm, c, w)(r) {
        if !(sub <= r.path) {
          MeetsBelow(rows, sub, r.path, |Listing(rows, sub)|);
        }
      }
      TotalEqual(rows, Walked(rows, sub, w), MetIn(rows, norm, c, w));
    } else {
      TotalSingle(rows, MetIn(rows, norm, c, w), AsRow(c));
    }
  }

  lemma Distributes(a: nat, b: nat, x: nat)
    ensures Scaled(a + b, x) == Scaled(a, x) + Scaled(b, x)
  {
  }

  lemma {:induction false} ChildrenAdd(rows: seq<Row>, norm: string, w: Row -> nat, n: nat)
    requires WellFormedIndex(rows) && IsNorm(norm) && n <= |Listing(rows, norm)|
    ensures Shares(rows, w, Listing(rows, norm), n) == Total(rows, Met(rows, norm, n, w))
  {
    hide Listing;
    if n == 0 {
      TotalZero(rows, Met(rows, norm, n, w));
    } else {
      var c := Listing(rows, norm)[n - 1];
      ChildrenAdd(rows, norm, w, n - 1);
      ChildAdds(rows, norm, w, c);
      var f, g, h := Met(rows, norm, n - 1, w), MetIn(rows, norm, c, w), Met(rows, norm, n, w);
      forall r | r in rows ensures h(r) == f(r) + g(r) {
        MetOneMore(rows, norm, w, n, r);
      }
      TotalSum(rows, f, g, h);
    }
  }

  lemma MetOneMore(rows: seq<Row>, norm: string, w: Row -> nat, n: nat, r: Row)
    requires 0 < n <= |Listing(rows, norm)|
    ensures Met(rows, norm, n, w)(r)
         == Met(rows, norm, n - 1, w)(r) + MetIn(rows, norm, Listing(rows, norm)[n - 1], w)(r)
  {
    hide Listing;
    var c := Listing(rows, norm)[n - 1];
    var more :=
      if LeadsTo(norm, c, r.path) then Reach(rows, c.path + "/", r.path)
      else if IsFile(c, r.path) then 1
      else 0;
    Distributes(Visits(rows, norm, r.path, n - 1), more, w(r));
  }

  /** For any prefix of any well-formed index: what walking all children adds
      is each file's weight once for every time it is met. */
  lemma ChildrenAddUp(rows: seq<Row>, norm: string, w: Row -> nat)
    requires WellFormedIndex(rows) && IsNorm(norm)
    ensures Shares(rows, w, Listing(rows, norm), |Listing(rows, norm)|) == Total(rows, Walked(rows, norm, w))
  {
    hide Listing;
    var n := |Listing(rows, norm)|;
    ChildrenAdd(rows, norm, w, n);
    TotalEqual(rows, Met(rows, norm, n, w), Walked(rows, norm, w));
  }

  // ---- Normalizing prefixes --------------------------------------------------

  /** The client strips trailing slashes and adds one. */
  function ClientNorm(prefix: string): string {
    TrimRight(prefix, '/') + "/"
  }

  /** The handler trims slashes on both ends and adds one. */
  function ServerNorm(prefix: string): (n: string)
    ensures IsNorm(n)
  {
    if prefix == "" then "" else Trim(prefix, '/') + "/"
  }

  /** The directory a selected path denotes. */
  function Canon(prefix: string): string {
    Trim(prefix, '/')
  }

  lemma NormsCompose(prefix: string)
    ensures ServerNorm(ClientNorm(prefix)) == Canon(prefix) + "/"
  {
    TrimAfterTrimRight(prefix, '/');
  }

  /** Which stored paths a request is about: all of them without a prefix, else
      those strictly below the directory it denotes. */
  lemma NormSelects(prefix: string, p: string)
    ensures ServerNorm(prefix) <= p <==> prefix == "" || Canon(prefix) + "/" <= p
  {
  }

  /** The request without a prefix shows the snapshot's top level: the tree's
      children of the root, one above or at every row of any well-formed index. */
  lemma RootShowsAll(rows: seq<Row>)
    requires WellFormedIndex(rows)
    ensures ListsTree(rows, ServerNorm(""))
    ensures forall r :: r in rows ==>
      exists c :: c in Listing(rows, ServerNorm("")) && c.path == TreeChild("", r.path)
    ensures rows != [] ==> |Listing(rows, ServerNorm(""))| > 0
  {
    hide Listing, IsTreeChild, Sorted;
    NarrowFits(rows, "");
    ListingIsTree(rows, "");
    hide WellFormedIndex;
    if rows != [] {
      assert rows[0] in rows;
    }
  }

  lemma CanonOfChild(rows: seq<Row>, norm: string, c: Child)
    requires WellFormedIndex(rows) && IsNorm(norm) && c in Listing(rows, norm)
    ensures Canon(c.path) == c.path
    ensures |norm| < |c.path| <= MaxLen(rows)
  {
    hide Listing, SqlChild;
    ListedBelow(rows, norm, c);
    var r :| r in rows && c.path <= r.path && (c.path == r.path || c.path + "/" <= r.path);
    StoredPath(rows, r);
    assert c.path[0] == r.path[0];
    var k := |c.path|;
    if c.path != r.path {
      assert (c.path + "/")[k] == '/' == r.path[k];
      assert r.path[k - 1] != '/';
    }
    TrimKeeps(c.path, '/', 0, k);
  }

  function MaxLen(rows: seq<Row>): (n: nat)
    ensures forall r :: r in rows ==> |r.path| <= n
  {
    if rows == [] then 0 else
      assert forall r :: r in rows <==> r == rows[0] || r in rows[1..];
      var n := MaxLen(rows[1..]);
      if |rows[0].path| > n then |rows[0].path| else n
  }

  /** A child can be walked as it is, and lies deeper than its directory. */
  ghost predicate Deeper(rows: seq<Row>, dir: string, c: Child) {
    Canon(c.path) == c.path && |dir| < |c.path| <= MaxLen(rows)
  }

  lemma ListedIsDeeper(rows: seq<Row>, dir: string, c: Child)
    requires WellFormedIndex(rows) && IsNorm(dir) && c in Listing(rows, dir)
    ensures Deeper(rows, dir, c)
  {
    CanonOfChild(rows, dir, c);
  }

  /** How much deeper a walk can still go. */
  function Room(rows: seq<Row>, prefix: string): nat {
    if |Canon(prefix)| <= MaxLen(rows) then MaxLen(rows) + 2 - |Canon(prefix)| else 1
  }

  // ---- The dialog --------------------------------------------------------------

  /** The index is either still being built or available. */
  datatype Index = Indexing | Ready(rows: seq<Row>)

  /** The handler's answer: 202 while indexing, else a page and the total. */
  datatype Response = NotReady | Files(files: seq<Child>, total: nat)

  /** The rows of the listing from `offset` on, at most `limit` of them. */
  ghost predicate IsPage(files: seq<Child>, all: seq<Child>, limit: nat, offset: nat) {
    && |files| == (if |all| <= offset then 0 else if |all| - offset < limit then |all| - offset else limit)
    && forall i :: 0 <= i < |files| ==> files[i] == all[offset + i]
  }

  /** One recursiveSize call: `bytes` and `fileCount` are the variables its
      nested walkDir closes over. */
  class Sizer {
    const index: Index
    const known: map<string, Child>
    const pageSize: nat
    var bytes: nat
    var fileCount: nat

    ghost predicate Valid() {
      && 1 <= pageSize <= MAX_PAGE
      && (index.Ready? ==> WellFormedIndex(index.rows) && KnownAgrees(known, index.rows))
    }

    constructor (index: Index, known: map<string, Child>, pageSize: nat)
      requires 1 <= pageSize <= MAX_PAGE
      requires index.Ready? ==> WellFormedIndex(index.rows) && KnownAgrees(known, index.rows)
      ensures Valid() && this.index == index && this.known == known && this.pageSize == pageSize
      ensures bytes == 0 && fileCount == 0
    {
      this.index, this.known, this.pageSize := index, known, pageSize;
      bytes, fileCount := 0, 0;
    }

    /** GET /snapshots/{id}/files with the handler's normalization. */
    method GetSnapshotFiles(prefix: string, limit: int, offset: nat) returns (res: Response)
      ensures res.NotReady? <==> index.Indexing?
      ensures index.Ready? ==>
        var all := Listing(index.rows, if prefix == "" then "" else Canon(prefix) + "/");
        && IsPage(res.files, all, if limit < 1 then 1 else if limit > 5000 then 5000 else limit, offset)
        && res.total == if res.files == [] then 0 else |all|
    {
      hide Listing, Trim;
      if index.Indexing? {
        return NotReady;
      }
      var files, total := ListSnapshotChildren(index.rows, ServerNorm(prefix), limit, offset);
      return Files(files, total);
    }

    /** The inner loop of walkDir: one page of the children of `dir`. */
    method WalkPage(files: seq<Child>, ghost dir: string, ghost all: seq<Child>, ghost offset: nat) returns (ok: bool)
      requires Valid() && index.Ready? && IsNorm(dir) && all == Listing(index.rows, dir)
      requires offset + |files| <= |all| && IsPage(files, all, |files|, offset)
      modifies this
      ensures ok && bytes + Shares(index.rows, Bytes(), all, offset)
                 == old(bytes) + Shares(index.rows, Bytes(), all, offset + |files|)
      ensures fileCount + Shares(index.rows, One(), all, offset)
           == old(fileCount) + Shares(index.rows, One(), all, offset + |files|)
      decreases if |dir| <= MaxLen(index.rows) then MaxLen(index.rows) + 2 - |dir| else 0, 1
    {
      hide Listing, Trim, MaxLen;
      ok := true;
      for i := 0 to |files|
        invariant ok && bytes + Shares(index.rows, Bytes(), all, offset)
                     == old(bytes) + Shares(index.rows, Bytes(), all, offset + i)
        invariant fileCount + Shares(index.rows, One(), all, offset)
               == old(fileCount) + Shares(index.rows, One(), all, offset + i)
      {
        var f := files[i];
        ListedIsDeeper(index.rows, dir, f);
        if f.isDir {
          ok := WalkDir(f.path);
        } else {
          bytes := bytes + f.size;
          fileCount := fileCount + 1;
        }
      }
    }

    /** The paging loop of walkDir; without an index the first request throws. */
    method WalkPages(norm: string, ghost dir: string) returns (ok: bool)
      requires Valid() && dir == ServerNorm(norm)
      modifies this
      ensures ok <==> index.Ready?
      ensures !ok ==> unchanged(this)
      ensures ok ==> var all := Listing(index.rows, dir);
        && bytes == old(bytes) + Shares(index.rows, Bytes(), all, |all|)
        && fileCount == old(fileCount) + Shares(index.rows, One(), all, |all|)
      decreases if index.Ready? && |dir| <= MaxLen(index.rows) then MaxLen(index.rows) + 2 - |dir| else 0, 2
    {
      hide Listing, Share, Trim;
      ghost var all := if index.Ready? then Listing(index.rows, dir) else [];
      var offset := 0;
      while true
        invariant offset <= |all| && (index.Indexing? ==> unchanged(this))
        invariant index.Ready? ==> bytes == old(bytes) + Shares(index.rows, Bytes(), all, offset)
        invariant index.Ready? ==> fileCount == old(fileCount) + Shares(index.rows, One(), all, offset)
        decreases |all| - offset
      {
        var res := GetSnapshotFiles(norm, pageSize, offset);
        if res.NotReady? {
          return false;
        }
        ok := WalkPage(res.files, dir, all, offset);
        if |res.files| < pageSize {
          break;
        }
        offset := offset + pageSize;
      }
    }

    /** Terminates at any depth and page size and adds the number and bytes of
        the files below the path, each as often as it is met; fails exactly
        while the index is not ready. */
    method WalkDir(prefix: string) returns (ok: bool)
      requires Valid()
      modifies this
      ensures ok <==> index.Ready?
      ensures ok ==> bytes == old(bytes) + Total(index.rows, Walked(index.rows, Canon(prefix) + "/", Bytes()))
      ensures ok ==> fileCount == old(fileCount) + Total(index.rows, Walked(index.rows, Canon(prefix) + "/", One()))
      ensures !ok ==> unchanged(this)
      decreases if index.Ready? then Room(index.rows, prefix) else 1, 3
    {
      hide Listing;
      ghost var dir := Canon(prefix) + "/";
      NormsCompose(prefix);
      ok := WalkPages(ClientNorm(prefix), dir);
      if ok {
        ChildrenAddUp(index.rows, dir, Bytes());
        ChildrenAddUp(index.rows, dir, One());
      }
    }

    /** Sizes a selection: known files from the loaded listing, everything else by a walk. */
    method RecursiveSize(paths: seq<string>) returns (ok: bool)
      requires Valid() && bytes == 0 && fileCount == 0
      modifies this
      ensures ok <==> index.Ready? || forall p :: p in paths ==> p in known && !known[p].isDir
      ensures index.Indexing? && ok ==> bytes == KnownBytes(known, paths, |paths|) && fileCount == |paths|
      ensures index.Ready? ==> bytes == Total(index.rows, Weighted(index.rows, known, paths, |paths|, Bytes()))
      ensures index.Ready? ==> fileCount == Total(index.rows, Weighted(index.rows, known, paths, |paths|, One()))
    {
      hide Weighted, Walked, WellFormedIndex, Canon;
      ok := true;
      if index.Ready? {
        NothingSelected(index.rows, known, paths, Bytes());
        NothingSelected(index.rows, known, paths, One());
      }
      for i := 0 to |paths|
        invariant ok
        invariant index.Indexing? ==> bytes == KnownBytes(known, paths, i) && fileCount == i
        invariant index.Indexing? ==> forall k :: 0 <= k < i ==> paths[k] in known && !known[paths[k]].isDir
        invariant index.Ready? ==> bytes == Total(index.rows, Weighted(index.rows, known, paths, i, Bytes()))
        invariant index.Ready? ==> fileCount == Total(index.rows, Weighted(index.rows, known, paths, i, One()))
      {
        var p := paths[i];
        if index.Ready? {
          SelectionShare(index.rows, known, paths, i, Bytes());
          SelectionShare(index.rows, known, paths, i, One());
        }
        if p in known && !known[p].isDir {
          bytes := bytes + known[p].size;
          fileCount := fileCount + 1;
        } else {
          ok := WalkDir(p);
          if !ok {
            return;
          }
        }
      }
    }
  }

  // ---- When a walk meets every file once -------------------------------------------

  /** A stored directory that the select shows besides the cut: it lies below
      the prefix within the bytes the prefix has in excess. */
  ghost predicate Detour(rows: seq<Row>, norm: string, f: string) {
    exists x :: x in rows && norm <= x.path && |x.path| < Utf8Len(norm) && x.path + "/" <= f
  }

  /** The child of `norm` through which the walk is meant to reach `f`. */
  lemma MainChild(rows: seq<Row>, norm: string, r: Row) returns (i: nat)
    requires WellFormedIndex(rows) && IsNorm(norm) && r in rows && !r.isDir && norm <= r.path
    ensures i < |Listing(rows, norm)|
    ensures var c := Listing(rows, norm)[i];
      c.path == SqlChild(norm, r.path) && if c.path == r.path then IsFile(c, r.path) else LeadsTo(norm, c, r.path)
  {
    hide Listing, SqlChild;
    ListingHolds(rows, norm);
    StoredPath(rows, r);
    SqlChildBelow(norm, r.path);
    i :| 0 <= i < |Listing(rows, norm)| && Listing(rows, norm)[i].path == SqlChild(norm, r.path);
    var c := Listing(rows, norm)[i];
    assert c in Listing(rows, norm);
    if c.path == r.path && c.isDir {
      var x :| x in rows && norm <= x.path && SqlChild(norm, x.path) == c.path && (x.path == c.path ==> x.isDir);
      StoredPath(rows, x);
      SqlChildBelow(norm, x.path);
      OneKind(rows, r, x);
    }
  }

  /** A stored file is not a directory, whether by its own row or by a deeper one. */
  lemma OneKind(rows: seq<Row>, r: Row, x: Row)
    requires WellFormedIndex(rows) && r in rows && x in rows && (x.path == r.path || r.path + "/" <= x.path)
    requires x.path == r.path ==> x.isDir
    ensures r.isDir
  {
    if x.path == r.path {
      UniqueRow(rows, x, r);
    } else {
      AncestorIsDir(rows, r, x);
    }
  }

  /** Any other child that leads to `f` is a detour. */
  lemma OtherChild(rows: seq<Row>, norm: string, r: Row, c: Child)
    requires WellFormedIndex(rows) && IsNorm(norm) && r in rows && norm <= r.path
    requires c in Listing(rows, norm) && c.path != SqlChild(norm, r.path)
    requires LeadsTo(norm, c, r.path) || IsFile(c, r.path)
    ensures LeadsTo(norm, c, r.path) && Detour(rows, norm, r.path)
  {
    hide Listing, SqlChild;
    ListingHolds(rows, norm);
    ListedBelow(rows, norm, c);
    var q :| q in rows && norm <= q.path && SqlChild(norm, q.path) == c.path;
    assert LeadsTo(norm, c, r.path);
    SqlChildAbove(norm, q.path, r.path);
  }

  /** And each detour shows up as another child. */
  lemma DetourChild(rows: seq<Row>, norm: string, r: Row) returns (i: nat)
    requires WellFormedIndex(rows) && IsNorm(norm) && r in rows && norm <= r.path && Detour(rows, norm, r.path)
    ensures i < |Listing(rows, norm)| && LeadsTo(norm, Listing(rows, norm)[i], r.path)
    ensures Listing(rows, norm)[i].path != SqlChild(norm, r.path)
  {
    hide Listing;
    ListingHolds(rows, norm);
    var x :| x in rows && norm <= x.path && |x.path| < Utf8Len(norm) && x.path + "/" <= r.path;
    SqlChildCut(norm, x.path);
    SqlChildCut(norm, r.path);
    AncestorIsDir(rows, x, r);
    i :| 0 <= i < |Listing(rows, norm)| && Listing(rows, norm)[i].path == SqlChild(norm, x.path);
    assert Listing(rows, norm)[i] in Listing(rows, norm);
  }

  /** What one child adds to the visits of a file. */
  ghost function Adds(rows: seq<Row>, norm: string, c: Child, f: string): nat {
    if LeadsTo(norm, c, f) then Reach(rows, c.path + "/", f) else if IsFile(c, f) then 1 else 0
  }

  lemma {:induction false} VisitsAtLeast(rows: seq<Row>, norm: string, f: string, n: nat, i: nat, j: nat)
    requires i < j <= n <= |Listing(rows, norm)|
    ensures Visits(rows, norm, f, n) >= Adds(rows, norm, Listing(rows, norm)[i], f)
    ensures j < n ==>
      Visits(rows, norm, f, n) >= Adds(rows, norm, Listing(rows, norm)[i], f)
        + Adds(rows, norm, Listing(rows, norm)[j], f)
  {
    hide Listing, LeadsTo, IsFile;
    if j < n {
      VisitsAtLeast(rows, norm, f, n - 1, i, j);
    } else if i < n - 1 {
      VisitsAtLeast(rows, norm, f, n - 1, i, n - 1);
    }
  }

  lemma {:induction false} VisitsOnly(rows: seq<Row>, norm: string, f: string, n: nat, i: nat)
    requires n <= |Listing(rows, norm)| && i < |Listing(rows, norm)|
    requires forall j :: 0 <= j < |Listing(rows, norm)| && j != i ==> Adds(rows, norm, Listing(rows, norm)[j], f) == 0
    ensures Visits(rows, norm, f, n) == if i < n then Adds(rows, norm, Listing(rows, norm)[i], f) else 0
  {
    hide Listing, LeadsTo, IsFile;
    if n > 0 {
      VisitsOnly(rows, norm, f, n - 1, i);
    }
  }

  /** Every file below a prefix is met. */
  lemma {:induction false} MeetsAll(rows: seq<Row>, norm: string, r: Row)
    requires WellFormedIndex(rows) && IsNorm(norm) && r in rows && !r.isDir && norm <= r.path
    ensures Reach(rows, norm, r.path) >= 1
    decreases |r.path| - |norm|
  {
    hide Listing, SqlChild;
    var i := MainChild(rows, norm, r);
    var c := Listing(rows, norm)[i];
    if c.path != r.path {
      StoredPath(rows, r);
      SqlChildBelow(norm, r.path);
      MeetsAll(rows, c.path + "/", r);
    }
    VisitsAtLeast(rows, norm, r.path, |Listing(rows, norm)|, i, i + 1);
  }

  /** A file is met once exactly if there is no detour to it and the main child
      leads to it once. */
  lemma MetOnceStep(rows: seq<Row>, norm: string, r: Row)
    requires WellFormedIndex(rows) && IsNorm(norm) && r in rows && !r.isDir && norm <= r.path
    ensures Reach(rows, norm, r.path) == 1 <==>
      !Detour(rows, norm, r.path)
      && (SqlChild(norm, r.path) == r.path || Reach(rows, SqlChild(norm, r.path) + "/", r.path) == 1)
  {
    hide Listing, SqlChild, Detour;
    var f, n := r.path, |Listing(rows, norm)|;
    var i := MainChild(rows, norm, r);
    MainAdds(rows, norm, r, i);
    if Detour(rows, norm, f) {
      var j := DetourChild(rows, norm, r);
      assert Listing(rows, norm)[j].path != Listing(rows, norm)[i].path;
      MeetsAll(rows, Listing(rows, norm)[j].path + "/", r);
      VisitsAtLeast(rows, norm, f, n, if i < j then i else j, if i < j then j else i);
    } else {
      forall j | 0 <= j < n && j != i ensures Adds(rows, norm, Listing(rows, norm)[j], f) == 0 {
        OtherAdds(rows, norm, r, i, j);
      }
      VisitsOnly(rows, norm, f, n, i);
    }
  }

  lemma MainAdds(rows: seq<Row>, norm: string, r: Row, i: nat)
    requires WellFormedIndex(rows) && IsNorm(norm) && r in rows && !r.isDir && norm <= r.path
    requires i < |Listing(rows, norm)|
    requires var c := Listing(rows, norm)[i];
      c.path == SqlChild(norm, r.path) && if c.path == r.path then IsFile(c, r.path) else LeadsTo(norm, c, r.path)
    ensures Adds(rows, norm, Listing(rows, norm)[i], r.path)
         == if SqlChild(norm, r.path) == r.path then 1 else Reach(rows, SqlChild(norm, r.path) + "/", r.path)
    ensures Adds(rows, norm, Listing(rows, norm)[i], r.path) >= 1
  {
    hide Listing, SqlChild, Reach;
    if Listing(rows, norm)[i].path != r.path {
      MeetsAll(rows, Listing(rows, norm)[i].path + "/", r);
    }
  }

  lemma OtherAdds(rows: seq<Row>, norm: string, r: Row, i: nat, j: nat)
    requires WellFormedIndex(rows) && IsNorm(norm) && r in rows && norm <= r.path && !Detour(rows, norm, r.path)
    requires i < |Listing(rows, norm)| && j < |Listing(rows, norm)| && i != j
    requires Listing(rows, norm)[i].path == SqlChild(norm, r.path)
    ensures Adds(rows, norm, Listing(rows, norm)[j], r.path) == 0
  {
    hide Listing, SqlChild, Detour, Reach;
    var c := Listing(rows, norm)[j];
    ListedPathsDiffer(rows, norm, i, j);
    if LeadsTo(norm, c, r.path) || IsFile(c, r.path) {
      OtherChild(rows, norm, r, c);
    }
  }

  lemma ListedPathsDiffer(rows: seq<Row>, norm: string, i: nat, j: nat)
    requires WellFormedIndex(rows) && IsNorm(norm)
    requires i < |Listing(rows, norm)| && j < |Listing(rows, norm)| && i != j
    ensures Listing(rows, norm)[i].path != Listing(rows, norm)[j].path
  {
    hide Listing;
    ListingHolds(rows, norm);
    var c, d := Listing(rows, norm)[i], Listing(rows, norm)[j];
    assert Before(c, d) || Before(d, c);
    if c == d {
      LessIrreflexive(c.path);
    }
  }

  /** Every slash of `f` after its first `n` characters lies past as many
      characters as they have bytes: the name that comes next is at least as
      long as they have bytes in excess of characters. */
  predicate LongName(f: string, n: nat) {
    n <= |f| && forall j :: n <= j < |f| && f[j] == '/' ==> Utf8Len(f[..n]) <= j
  }

  /** Every directory name from position `n` on is as long as the path before it
      has bytes in excess. Narrow paths have such names, whatever the last one is. */
  predicate LongNames(f: string, n: nat) {
    forall m {:trigger LongName(f, m)} :: n <= m <= |f| && (m == 0 || f[m - 1] == '/') ==> LongName(f, m)
  }

  /** The index holds a row for every directory on the way to `f` from `n` on. */
  ghost predicate DirsStored(rows: seq<Row>, f: string, n: nat) {
    forall j :: n <= j < |f| && f[j] == '/' ==> exists x :: x in rows && x.path == f[..j]
  }

  /** A long name leaves no detour, and with all directories stored a short one
      is a detour. */
  lemma DetourExact(rows: seq<Row>, norm: string, f: string)
    requires norm <= f
    ensures LongName(f, |norm|) ==> !Detour(rows, norm, f)
    ensures DirsStored(rows, f, |norm|) ==> (!Detour(rows, norm, f) <==> LongName(f, |norm|))
  {
    hide Utf8Len;
    assert f[..|norm|] == norm;
    if Detour(rows, norm, f) {
      var x :| x in rows && norm <= x.path && |x.path| < Utf8Len(norm) && x.path + "/" <= f;
      assert f[|x.path|] == (x.path + "/")[|x.path|] == '/';
    } else if DirsStored(rows, f, |norm|) {
      forall j | |norm| <= j < |f| && f[j] == '/' ensures Utf8Len(norm) <= j {
        var x :| x in rows && x.path == f[..j];
        assert norm <= x.path && x.path + "/" <= f;
      }
    }
  }

  /** Past a long name the select cuts at the next slash. */
  lemma LongNamesStep(norm: string, f: string)
    requires IsNorm(norm) && WellFormedPath(f) && norm <= f && LongName(f, |norm|)
    ensures SqlChild(norm, f) == TreeChild(norm, f)
    ensures LongNames(f, |norm|) <==> SqlChild(norm, f) == f || LongNames(f, |SqlChild(norm, f)| + 1)
  {
    var k := TreeChild(norm, f);
    assert f[..|norm|] == norm;
    SqlChildFits(norm, f);
    hide SqlChild, Utf8Len;
    assert forall i :: |norm| <= i < |k| ==> f[i] != '/';
  }

  /** Exactly when a walk meets a file once: long names always do, and they are
      needed if the index holds all directories, as the listing of rustic does. */
  lemma {:induction false} MetOnceExact(rows: seq<Row>, norm: string, r: Row)
    requires WellFormedIndex(rows) && IsNorm(norm) && r in rows && !r.isDir && norm <= r.path
    ensures LongNames(r.path, |norm|) ==> Reach(rows, norm, r.path) == 1
    ensures DirsStored(rows, r.path, |norm|) ==> (Reach(rows, norm, r.path) == 1 <==> LongNames(r.path, |norm|))
    decreases |r.path| - |norm|
  {
    hide Reach, Detour, SqlChild, LongName;
    var f, k := r.path, SqlChild(norm, r.path);
    StoredPath(rows, r);
    MetOnceStep(rows, norm, r);
    DetourExact(rows, norm, f);
    SqlChildBelow(norm, f);
    assert norm != "" ==> f[|norm| - 1] == norm[|norm| - 1] == '/';
    assert LongNames(f, |norm|) ==> LongName(f, |norm|);
    if LongName(f, |norm|) {
      LongNamesStep(norm, f);
      if k != f {
        MetOnceExact(rows, k + "/", r);
      }
    }
  }

  /** Narrow directory prefixes leave all names long enough; what the files are
      called does not matter. */
  lemma NarrowDirsAreLong(f: string)
    requires WellFormedPath(f) && forall k :: 0 <= k < |f| && f[k] == '/' ==> Narrow(f[..k + 1])
    ensures LongNames(f, 0)
  {
    forall m | 0 <= m <= |f| && (m == 0 || f[m - 1] == '/') ensures LongName(f, m) {
      assert m > 0 ==> Narrow(f[..m - 1 + 1]);
    }
  }

  /** Every directory of every path has a row. */
  ghost predicate StoresDirs(rows: seq<Row>) {
    forall r :: r in rows ==> DirsStored(rows, r.path, 0)
  }

  /** A walk never counts too little, and for any weight counts what is strictly
      below exactly if it meets every file that weighs something once: if all
      directory names are long enough, and, with all directories stored, only then. */
  lemma WalkExact(rows: seq<Row>, norm: string, w: Row -> nat)
    requires WellFormedIndex(rows) && IsNorm(norm)
    ensures Total(rows, Below(norm, w)) <= Total(rows, Walked(rows, norm, w))
    ensures Total(rows, Below(norm, w)) == Total(rows, Walked(rows, norm, w)) <==>
      forall r :: r in rows && !r.isDir && norm <= r.path && w(r) > 0 ==> Reach(rows, norm, r.path) == 1
    ensures (forall r :: r in rows && !r.isDir && norm <= r.path && w(r) > 0 ==> LongNames(r.path, |norm|))
      ==> Total(rows, Below(norm, w)) == Total(rows, Walked(rows, norm, w))
    ensures StoresDirs(rows) && Total(rows, Below(norm, w)) == Total(rows, Walked(rows, norm, w))
      ==> forall r :: r in rows && !r.isDir && norm <= r.path && w(r) > 0 ==> LongNames(r.path, |norm|)
  {
    hide Reach, LongNames, WellFormedIndex;
    var f, g := Below(norm, w), Walked(rows, norm, w);
    forall r | r in rows
      ensures f(r) <= g(r)
      ensures f(r) == g(r) <==> (!r.isDir && norm <= r.path && w(r) > 0 ==> Reach(rows, norm, r.path) == 1)
    {
      WalkedAt(rows, norm, w, r);
    }
    TotalDominated(rows, f, g);
    forall r | r in rows && !r.isDir && norm <= r.path
      ensures LongNames(r.path, |norm|) ==> Reach(rows, norm, r.path) == 1
      ensures StoresDirs(rows) && Reach(rows, norm, r.path) == 1 ==> LongNames(r.path, |norm|)
    {
      MetOnceExact(rows, norm, r);
    }
  }

  /** Two wide letters, then a directory with a short name. */
  const SHORT_NAMES := [
    Row("\U{E9}\U{E9}", 0, "", true),
    Row("\U{E9}\U{E9}/a", 0, "", true),
    Row("\U{E9}\U{E9}/a/f", 0, "", false)
  ]

  lemma ShortNamesStored()
    ensures WellFormedIndex(SHORT_NAMES) && StoresDirs(SHORT_NAMES)
  {
    var d, a, r := SHORT_NAMES[0], SHORT_NAMES[1], SHORT_NAMES[2];
    assert d in SHORT_NAMES && a in SHORT_NAMES;
    assert d.path == a.path[..2] == r.path[..2] && a.path == r.path[..4];
  }

  lemma ShortNameLacks()
    ensures !LongName("\U{E9}\U{E9}/a/f", 3)
  {
    var f := "\U{E9}\U{E9}/a/f";
    assert f[..3] == "\U{E9}\U{E9}/" && f[4] == '/';
    assert f[..3][1..] == "\U{E9}/" && "\U{E9}/"[1..] == "/" && "/"[1..] == "";
  }

  /** A well-formed index with all its directories in which a walk counts a file
      more than once: the name `a` is too short for the path before it. */
  lemma ShortNamesCountTwice()
    ensures WellFormedIndex(SHORT_NAMES) && StoresDirs(SHORT_NAMES)
    ensures Reach(SHORT_NAMES, "\U{E9}\U{E9}/", "\U{E9}\U{E9}/a/f") >= 2
  {
    hide Reach, LongName, WellFormedIndex, DirsStored;
    var r, norm := SHORT_NAMES[2], "\U{E9}\U{E9}/";
    ShortNamesStored();
    ShortNameLacks();
    assert r in SHORT_NAMES && r.path[..3] == norm;
    DirsBelow(SHORT_NAMES, r.path, 3);
    MetOnceExact(SHORT_NAMES, norm, r);
    MeetsAll(SHORT_NAMES, norm, r);
  }

  lemma DirsBelow(rows: seq<Row>, f: string, n: nat)
    ensures DirsStored(rows, f, 0) ==> DirsStored(rows, f, n)
  {
  }

  lemma WalkedAt(rows: seq<Row>, norm: string, w: Row -> nat, r: Row)
    requires WellFormedIndex(rows) && IsNorm(norm) && r in rows
    ensures Below(norm, w)(r) <= Walked(rows, norm, w)(r)
    ensures Below(norm, w)(r) == Walked(rows, norm, w)(r) <==>
      (!r.isDir && norm <= r.path && w(r) > 0 ==> Reach(rows, norm, r.path) == 1)
  {
    if !r.isDir {
      if norm <= r.path {
        MeetsAll(rows, norm, r);
      } else {
        MeetsBelow(rows, norm, r.path, |Listing(rows, norm)|);
      }
      hide Listing;
      TimesExact(Reach(rows, norm, r.path), w(r));
    }
  }

  lemma TimesExact(n: nat, x: nat)
    ensures n >= 1 ==> Scaled(n, x) >= x
    ensures Scaled(n, x) == x <==> n == 1 || x == 0
    ensures n == 0 || x == 0 ==> Scaled(n, x) == 0
  {
    if n >= 1 {
      assert n * x == (n - 1) * x + x;
      if n > 1 && x > 0 {
        assert (n - 1) * x >= 1;
      }
    }
  }

  // ---- Selections ----------------------------------------------------------------

  /** The loaded listing shows files as the index has them. */
  ghost predicate KnownAgrees(known: map<string, Child>, rows: seq<Row>) {
    forall p :: p in known && !known[p].isDir ==> known[p].path == p && AsRow(known[p]) in rows
  }

  /** The sizes of the first `n` selected paths as the loaded listing shows them. */
  function KnownBytes(known: map<string, Child>, paths: seq<string>, n: nat): nat
    requires n <= |paths|
  {
    if n == 0 then 0
    else KnownBytes(known, paths, n - 1) + if paths[n - 1] in known then known[paths[n - 1]].size else 0
  }

  /** How often sizing one selected path counts a file: a known file is itself,
      anything else is walked. */
  ghost function Hits(rows: seq<Row>, known: map<string, Child>, p: string, f: string): nat {
    if p in known && !known[p].isDir then (if f == p then 1 else 0) else Reach(rows, Canon(p) + "/", f)
  }

  /** How often sizing the first `n` selected paths counts a file. */
  ghost function Times(rows: seq<Row>, known: map<string, Child>, paths: seq<string>, n: nat, f: string): nat
    requires n <= |paths|
  {
    if n == 0 then 0 else Times(rows, known, paths, n - 1, f) + Hits(rows, known, paths[n - 1], f)
  }

  ghost function Weighted(
    rows: seq<Row>, known: map<string, Child>, paths: seq<string>, n: nat, w: Row -> nat
  ): Row -> nat
    requires n <= |paths|
  {
    (r: Row) => if r.isDir then 0 else Scaled(Times(rows, known, paths, n, r.path), w(r))
  }

  ghost function HitBy(rows: seq<Row>, known: map<string, Child>, p: string, w: Row -> nat): Row -> nat {
    (r: Row) => if r.isDir then 0 else Scaled(Hits(rows, known, p, r.path), w(r))
  }

  /** What RecursiveSize adds for one selected path. */
  ghost function PathShare(rows: seq<Row>, known: map<string, Child>, p: string, w: Row -> nat): nat {
    if p in known && !known[p].isDir then w(AsRow(known[p])) else Total(rows, Walked(rows, Canon(p) + "/", w))
  }

  lemma NothingSelected(rows: seq<Row>, known: map<string, Child>, paths: seq<string>, w: Row -> nat)
    ensures Total(rows, Weighted(rows, known, paths, 0, w)) == 0
  {
    TotalZero(rows, Weighted(rows, known, paths, 0, w));
  }

  lemma SelectionShare(rows: seq<Row>, known: map<string, Child>, paths: seq<string>, n: nat, w: Row -> nat)
    requires WellFormedIndex(rows) && KnownAgrees(known, rows) && n < |paths|
    ensures Total(rows, Weighted(rows, known, paths, n + 1, w))
         == Total(rows, Weighted(rows, known, paths, n, w)) + PathShare(rows, known, paths[n], w)
  {
    hide Reach, KnownAgrees;
    var p := paths[n];
    var f, g, h := Weighted(rows, known, paths, n, w), HitBy(rows, known, p, w), Weighted(rows, known, paths, n + 1, w);
    HitsAdd(rows, known, p, w);
    forall r | r in rows ensures h(r) == f(r) + g(r) {
      Distributes(Times(rows, known, paths, n, r.path), Hits(rows, known, p, r.path), w(r));
    }
    TotalSum(rows, f, g, h);
  }

  lemma HitsAdd(rows: seq<Row>, known: map<string, Child>, p: string, w: Row -> nat)
    requires WellFormedIndex(rows) && KnownAgrees(known, rows)
    ensures PathShare(rows, known, p, w) == Total(rows, HitBy(rows, known, p, w))
  {
    hide Reach;
    var g := HitBy(rows, known, p, w);
    if p in known && !known[p].isDir {
      TotalSingle(rows, g, AsRow(known[p]));
    } else {
      TotalEqual(rows, g, Walked(rows, Canon(p) + "/", w));
    }
  }

  /** Each file that is counted at all, once. */
  ghost function Union(rows: seq<Row>, known: map<string, Child>, paths: seq<string>, w: Row -> nat): Row -> nat {
    (r: Row) => if !r.isDir && Times(rows, known, paths, |paths|, r.path) > 0 then w(r) else 0
  }

  /** Counting more than once shows in the total exactly where it weighs. */
  lemma UnionExact(rows: seq<Row>, known: map<string, Child>, paths: seq<string>, w: Row -> nat)
    ensures Total(rows, Union(rows, known, paths, w)) <= Total(rows, Weighted(rows, known, paths, |paths|, w))
    ensures Total(rows, Union(rows, known, paths, w)) == Total(rows, Weighted(rows, known, paths, |paths|, w)) <==>
      forall r :: r in rows && !r.isDir && w(r) > 0 ==> Times(rows, known, paths, |paths|, r.path) <= 1
  {
    hide Times;
    var f, g := Union(rows, known, paths, w), Weighted(rows, known, paths, |paths|, w);
    forall r | r in rows
      ensures f(r) <= g(r)
      ensures f(r) == g(r) <==> (!r.isDir && w(r) > 0 ==> Times(rows, known, paths, |paths|, r.path) <= 1)
    {
      TimesExact(Times(rows, known, paths, |paths|, r.path), w(r));
    }
    TotalDominated(rows, f, g);
  }

  /** A selected path covers itself when it is a known file, else what lies strictly below it. */
  predicate Covers(known: map<string, Child>, p: string, f: string) {
    if p in known && !known[p].isDir then f == p else Canon(p) + "/" <= f
  }

  /** No selected path equals or contains another. */
  predicate DisjointSelection(paths: seq<string>) {
    forall i, j :: 0 <= i < |paths| && 0 <= j < |paths| && i != j ==>
      Canon(paths[i]) != Canon(paths[j]) && !(Canon(paths[i]) + "/" <= Canon(paths[j]))
  }

  lemma CoversOnce(known: map<string, Child>, p: string, q: string, path: string)
    requires Covers(known, p, path) && Covers(known, q, path)
    requires p in known && !known[p].isDir ==> Canon(p) == p
    requires q in known && !known[q].isDir ==> Canon(q) == q
    ensures Canon(p) == Canon(q) || Canon(p) + "/" <= Canon(q) || Canon(q) + "/" <= Canon(p)
  {
    var a, b := Canon(p) + "/", Canon(q) + "/";
    if a <= path && b <= path {
      if |a| == |b| {
        assert a == b;
        assert a[..|a| - 1] == b[..|b| - 1];
      } else if |a| < |b| {
        assert a <= b[..|b| - 1];
      } else {
        assert b <= a[..|a| - 1];
      }
    }
  }

  /** Sizing the path meets the files it covers once each: it is a known file, or
      the directory names below it are long enough. */
  predicate MeetsOnce(known: map<string, Child>, p: string, f: string) {
    (p in known && !known[p].isDir) || LongNames(f, |Canon(p)| + 1)
  }

  /** A selected path counts a file exactly if it covers it, and once exactly if
      names are long enough (only then, if all directories are stored). */
  lemma HitsExact(rows: seq<Row>, known: map<string, Child>, p: string, r: Row)
    requires WellFormedIndex(rows) && r in rows && !r.isDir
    ensures Hits(rows, known, p, r.path) >= 1 <==> Covers(known, p, r.path)
    ensures Covers(known, p, r.path) && MeetsOnce(known, p, r.path) ==> Hits(rows, known, p, r.path) == 1
    ensures StoresDirs(rows) && Hits(rows, known, p, r.path) == 1 ==> MeetsOnce(known, p, r.path)
  {
    hide Canon, LongNames;
    var norm := Canon(p) + "/";
    if norm <= r.path {
      MetOnceExact(rows, norm, r);
      MeetsAll(rows, norm, r);
    } else {
      MeetsBelow(rows, norm, r.path, |Listing(rows, norm)|);
    }
    hide Listing, WellFormedIndex;
  }

  /** Two of the first `n` selected paths cover the file. */
  ghost predicate Overlap(known: map<string, Child>, paths: seq<string>, n: nat, f: string)
    requires n <= |paths|
  {
    exists i, j :: 0 <= i < j < n && Covers(known, paths[i], f) && Covers(known, paths[j], f)
  }

  /** At most one of the first `n` selected paths covers the file, and that one
      meets it once. */
  ghost predicate CoveredOnce(known: map<string, Child>, paths: seq<string>, n: nat, f: string)
    requires n <= |paths|
  {
    && !Overlap(known, paths, n, f)
    && (forall i :: 0 <= i < n && Covers(known, paths[i], f) ==> MeetsOnce(known, paths[i], f))
  }

  /** How often a selection counts a file: at all exactly if some path covers it,
      more than once if two do, and once if the names allow it (only then, if all
      directories are stored). */
  lemma {:induction false} TimesCovered(
    rows: seq<Row>, known: map<string, Child>, paths: seq<string>, n: nat, r: Row
  )
    requires WellFormedIndex(rows) && n <= |paths| && r in rows && !r.isDir
    ensures Times(rows, known, paths, n, r.path) >= 1 <==> exists i :: 0 <= i < n && Covers(known, paths[i], r.path)
    ensures Overlap(known, paths, n, r.path) ==> Times(rows, known, paths, n, r.path) > 1
    ensures CoveredOnce(known, paths, n, r.path) ==> Times(rows, known, paths, n, r.path) <= 1
    ensures StoresDirs(rows) && Times(rows, known, paths, n, r.path) <= 1 ==> CoveredOnce(known, paths, n, r.path)
  {
    hide Covers, Hits, MeetsOnce, WellFormedIndex, StoresDirs;
    if n > 0 {
      TimesCovered(rows, known, paths, n - 1, r);
      HitsExact(rows, known, paths[n - 1], r);
    }
  }

  /** With long names only overlaps count. */
  lemma OverlapsOnly(known: map<string, Child>, paths: seq<string>, f: string)
    requires LongNames(f, 0)
    ensures CoveredOnce(known, paths, |paths|, f) <==> !Overlap(known, paths, |paths|, f)
  {
    hide Covers, LongName, Overlap;
  }

  /** The results are those of the files covered, if nothing that weighs is
      counted twice, and otherwise too large. */
  lemma CoveredExact(rows: seq<Row>, known: map<string, Child>, paths: seq<string>, w: Row -> nat)
    requires WellFormedIndex(rows)
    ensures Total(rows, Covered(known, paths, w)) <= Total(rows, Weighted(rows, known, paths, |paths|, w))
    ensures Total(rows, Covered(known, paths, w)) == Total(rows, Weighted(rows, known, paths, |paths|, w)) <==>
      forall r :: r in rows && !r.isDir && w(r) > 0 ==> Times(rows, known, paths, |paths|, r.path) <= 1
  {
    hide Covers, Times, WellFormedIndex;
    forall r | r in rows ensures Covered(known, paths, w)(r) == Union(rows, known, paths, w)(r) {
      if !r.isDir {
        TimesCovered(rows, known, paths, |paths|, r);
      }
    }
    TotalEqual(rows, Covered(known, paths, w), Union(rows, known, paths, w));
    UnionExact(rows, known, paths, w);
  }

  /** When the dialog's results are right, for any weight, count and bytes alike,
      in terms of the selection and the names: never too small; with long names
      right exactly if no two selected paths cover the same file that weighs
      something; in general right if, and with all directories stored only if, every
      such file is covered at most once, by a path that meets it once. */
  lemma SizeExactIffDisjoint(rows: seq<Row>, known: map<string, Child>, paths: seq<string>, w: Row -> nat)
    requires WellFormedIndex(rows)
    ensures Total(rows, Covered(known, paths, w)) <= Total(rows, Weighted(rows, known, paths, |paths|, w))
    ensures (forall r :: r in rows && !r.isDir ==> LongNames(r.path, 0)) ==>
      (Total(rows, Covered(known, paths, w)) == Total(rows, Weighted(rows, known, paths, |paths|, w)) <==>
       forall r :: r in rows && !r.isDir && w(r) > 0 ==> !Overlap(known, paths, |paths|, r.path))
    ensures (forall r :: r in rows && !r.isDir && w(r) > 0 ==> CoveredOnce(known, paths, |paths|, r.path)) ==>
      Total(rows, Covered(known, paths, w)) == Total(rows, Weighted(rows, known, paths, |paths|, w))
    ensures StoresDirs(rows) ==>
      (Total(rows, Covered(known, paths, w)) == Total(rows, Weighted(rows, known, paths, |paths|, w)) ==>
       forall r :: r in rows && !r.isDir && w(r) > 0 ==> CoveredOnce(known, paths, |paths|, r.path))
  {
    hide Covers, LongNames, CoveredOnce, Overlap, Times, WellFormedIndex, StoresDirs;
    CoveredExact(rows, known, paths, w);
    forall r | r in rows && !r.isDir
      ensures LongNames(r.path, 0) ==>
        (Times(rows, known, paths, |paths|, r.path) <= 1 <==> !Overlap(known, paths, |paths|, r.path))
      ensures CoveredOnce(known, paths, |paths|, r.path) ==> Times(rows, known, paths, |paths|, r.path) <= 1
      ensures StoresDirs(rows) && Times(rows, known, paths, |paths|, r.path) <= 1 ==>
        CoveredOnce(known, paths, |paths|, r.path)
    {
      TimesCovered(rows, known, paths, |paths|, r);
      if LongNames(r.path, 0) {
        OverlapsOnly(known, paths, r.path);
      }
    }
  }

  /** Disjoint selections count every file they cover once and no other. */
  lemma DisjointCoversOnce(rows: seq<Row>, known: map<string, Child>, paths: seq<string>, n: nat, r: Row)
    requires WellFormedIndex(rows) && KnownAgrees(known, rows) && DisjointSelection(paths) && n <= |paths|
    requires r in rows && !r.isDir && LongNames(r.path, 0)
    ensures Times(rows, known, paths, n, r.path) <= 1
    ensures Times(rows, known, paths, n, r.path) == 1 <==> exists i :: 0 <= i < n && Covers(known, paths[i], r.path)
  {
    hide Canon, Times, Covers, WellFormedIndex, KnownAgrees;
    forall i, j | 0 <= i < j < n ensures !(Covers(known, paths[i], r.path) && Covers(known, paths[j], r.path)) {
      KnownIsCanon(rows, known, paths[i]);
      KnownIsCanon(rows, known, paths[j]);
      if Covers(known, paths[i], r.path) && Covers(known, paths[j], r.path) {
        CoversOnce(known, paths[i], paths[j], r.path);
      }
    }
    hide DisjointSelection, LongName;
    TimesCovered(rows, known, paths, n, r);
  }

  lemma KnownIsCanon(rows: seq<Row>, known: map<string, Child>, p: string)
    requires WellFormedIndex(rows) && KnownAgrees(known, rows)
    ensures p in known && !known[p].isDir ==> Canon(p) == p
  {
    if p in known && !known[p].isDir {
      StoredPath(rows, AsRow(known[p]));
      TrimKeeps(p, '/', 0, |p|);
    }
  }

  /** The weight of every file that some selected path covers. */
  ghost function Covered(known: map<string, Child>, paths: seq<string>, w: Row -> nat): Row -> nat {
    (r: Row) => if !r.isDir && (exists i :: 0 <= i < |paths| && Covers(known, paths[i], r.path)) then w(r) else 0
  }

  /** So for a disjoint selection and long names both results of RecursiveSize
      are those of the files covered, each once. */
  lemma DisjointSizeAddsUp(rows: seq<Row>, known: map<string, Child>, paths: seq<string>, w: Row -> nat)
    requires WellFormedIndex(rows) && KnownAgrees(known, rows) && DisjointSelection(paths)
    requires forall r :: r in rows && !r.isDir ==> LongNames(r.path, 0)
    ensures Total(rows, Weighted(rows, known, paths, |paths|, w)) == Total(rows, Covered(known, paths, w))
  {
    hide Times, Covers, LongNames;
    forall r | r in rows ensures Weighted(rows, known, paths, |paths|, w)(r) == Covered(known, paths, w)(r) {
      if !r.isDir {
        DisjointCoversOnce(rows, known, paths, |paths|, r);
      }
    }
    TotalEqual(rows, Weighted(rows, known, paths, |paths|, w), Covered(known, paths, w));
  }
}
