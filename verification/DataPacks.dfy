/** Counting the data packs of the repository index
    (api/internal/engine/rustic.go:757-842). */
module DataPacks {
  import opened Wrappers
  import P = WarmupPlan

  datatype Blob = Blob(id: string, kind: string)
  datatype Pack = Pack(id: string, blobs: seq<Blob>)

  /** What `rustic cat index` gave for one index file. */
  datatype Document = CatFailed | Malformed | Document(packs: seq<Pack>)

  datatype Failure = ListFailed | NoIndexFiles | CatIndexFailed | ParseFailed

  ghost predicate HasData(p: Pack) {
    p.id != "" && exists b :: b in p.blobs && b.kind == "data"
  }

  /** The non-empty pack IDs that some document shows with a data blob. */
  ghost function DataIds(docs: seq<Document>): set<string> {
    set d, p | d in docs && d.Document? && p in d.packs && HasData(p) :: p.id
  }

  /** The k-th blob of the j-th pack of the i-th document makes the pack a data pack. */
  predicate Shows(docs: seq<Document>, i: nat, j: nat, k: nat, id: string) {
    && i < |docs| && docs[i].Document? && j < |docs[i].packs| && k < |docs[i].packs[j].blobs|
    && docs[i].packs[j].id == id && docs[i].packs[j].blobs[k].kind == "data"
  }

  lemma DataIdsExact(docs: seq<Document>, id: string)
    ensures id in DataIds(docs) <==> id != "" && exists i: nat, j: nat, k: nat :: Shows(docs, i, j, k, id)
  {
    if id in DataIds(docs) {
      var d, p :| d in docs && d.Document? && p in d.packs && HasData(p) && p.id == id;
      var b :| b in p.blobs && b.kind == "data";
      var i :| 0 <= i < |docs| && docs[i] == d;
      var j :| 0 <= j < |d.packs| && d.packs[j] == p;
      var k :| 0 <= k < |p.blobs| && p.blobs[k] == b;
      assert Shows(docs, i, j, k, id);
    }
    if id != "" && exists i: nat, j: nat, k: nat :: Shows(docs, i, j, k, id) {
      var i: nat, j: nat, k: nat :| Shows(docs, i, j, k, id);
      assert HasData(docs[i].packs[j]) && docs[i] in docs;
    }
  }

  /** The `seen` map that CountDataPacks shares between documents. */
  class Counter {
    var seen: set<string>

    constructor ()
      ensures seen == {}
    {
      seen := {};
    }

    /** addDataPacks: on a parse error nothing is added. */
    method AddDataPacks(doc: Document) returns (ok: bool)
      modifies this
      ensures ok <==> doc.Document?
      ensures seen == old(seen) + DataIds([doc])
    {
      if !doc.Document? {
        return false;
      }
      var packs := doc.packs;
      for i := 0 to |packs|
        invariant seen == old(seen) + set p | p in packs[..i] && HasData(p) :: p.id
      {
        assert packs[..i + 1] == packs[..i] + [packs[i]];
        if packs[i].id == "" || packs[i].id in seen {
          continue;
        }
        for j := 0 to |packs[i].blobs|
          invariant seen == old(seen) + set p | p in packs[..i] && HasData(p) :: p.id
          invariant forall k :: 0 <= k < j ==> packs[i].blobs[k].kind != "data"
        {
          if packs[i].blobs[j].kind == "data" {
            assert HasData(packs[i]);
            seen := seen + {packs[i].id};
            break;
          }
        }
      }
      assert packs[..|packs|] == packs;
      ok := true;
    }
  }

  lemma DataIdsAppend(docs: seq<Document>, d: Document)
    ensures DataIds(docs + [d]) == DataIds(docs) + DataIds([d])
  {
    assert forall x :: x in docs + [d] <==> x in docs || x == d;
  }

  /** The count is the number of distinct data packs; it fails exactly when a
      command fails, a document does not parse, or there is no index at all. */
  method CountDataPacks(listed: bool, docs: seq<Document>) returns (r: Result<nat, Failure>)
    ensures r.Ok? <==> listed && docs != [] && forall d :: d in docs ==> d.Document?
    ensures r.Ok? ==> r.value == |DataIds(docs)|
  {
    if !listed {
      return Err(ListFailed);
    }
    if docs == [] {
      return Err(NoIndexFiles);
    }
    var c := new Counter();
    for i := 0 to |docs|
      invariant c.seen == DataIds(docs[..i])
      invariant forall k :: 0 <= k < i ==> docs[k].Document?
      invariant fresh(c)
    {
      assert docs[i] in docs;
      if docs[i].CatFailed? {
        return Err(CatIndexFailed);
      }
      DataIdsAppend(docs[..i], docs[i]);
      assert docs[..i + 1] == docs[..i] + [docs[i]];
      var ok := c.AddDataPacks(docs[i]);
      if !ok {
        return Err(ParseFailed);
      }
    }
    assert docs[..|docs|] == docs;
    r := Ok(|c.seen|);
  }

  /** Neither the order nor the repetition of documents matters, and documents
      more can only raise the count. */
  lemma CountIsOfASet(docs: seq<Document>, more: seq<Document>)
    requires forall d :: d in docs ==> d in more
    ensures |DataIds(docs)| <= |DataIds(more)|
    ensures (forall d :: d in more ==> d in docs) ==> |DataIds(docs)| == |DataIds(more)|
  {
    assert DataIds(docs) <= DataIds(more);
    CardinalityMonotone(DataIds(docs), DataIds(more));
    if forall d :: d in more ==> d in docs {
      assert DataIds(docs) == DataIds(more);
    }
  }

  lemma {:induction false} CardinalityMonotone(a: set<string>, b: set<string>)
    requires a <= b
    ensures |a| <= |b|
  {
    if x :| x in a {
      CardinalityMonotone(a - {x}, b - {x});
    }
  }

  /** A restore needs some of the data packs in the index: sized by the index,
      each of its batches gets at least the expiry, and the job at least the
      time, that sizing by the real need would give. */
  lemma PlannedFromTheIndex(docs: seq<Document>, needed: set<string>, rate: int)
    requires needed <= DataIds(docs)
    ensures var p, q := P.ComputeWarmupPlan(|needed|, rate), P.ComputeWarmupPlan(|DataIds(docs)|, rate);
      p.batches <= q.batches && p.timeoutHours <= q.timeoutHours
      && forall k :: 1 <= k <= p.batches ==> P.ExpiryDays(p, k) <= P.ExpiryDays(q, k)
  {
    CardinalityMonotone(needed, DataIds(docs));
    P.PlanMonotone(|needed|, |DataIds(docs)|, rate);
  }
}
