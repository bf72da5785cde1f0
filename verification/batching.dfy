/** What `BaseBynderSyncCommand` asks the Bynder API for, and how `handle`
    groups the records it gets back into batches. */
module Batching {
  import opened Wrappers
  import opened AssetData

  /** `page_size` of every sync command. */
  const PAGE_SIZE: nat := 200

  /** The `media_list` query for one page. */
  datatype Query = Query(dateModified: int, orderBy: string, page: nat, limit: nat, assetType: Option<string>)

  /** The query `get_assets` sends for `page`: `type` is added only for a
      non-empty `bynder_asset_type`. */
  function QueryFor(minDateModified: int, assetType: string, page: nat): (q: Query)
    ensures q.dateModified == minDateModified && q.orderBy == "dateModified desc"
    ensures q.page == page && q.limit == PAGE_SIZE
    ensures q.assetType.Some? <==> assetType != ""
    ensures q.assetType.Some? ==> q.assetType.value == assetType
  {
    Query(minDateModified, "dateModified desc", page, PAGE_SIZE, if assetType != "" then Some(assetType) else None)
  }

  /** The records `get_assets` yields from `page` on: pages in order, up
      to the first empty one. `lastPage` is some page known to be empty,
      which bounds the walk. */
  function PagesFrom(mediaList: Query -> seq<AssetRecord>, minDateModified: int, assetType: string,
                     page: nat, lastPage: nat): (r: seq<AssetRecord>)
    ensures page < lastPage ==> mediaList(QueryFor(minDateModified, assetType, page)) <= r
    decreases lastPage - page
  {
    if page >= lastPage then []
    else
      var results := mediaList(QueryFor(minDateModified, assetType, page));
      if results == [] then [] else results + PagesFrom(mediaList, minDateModified, assetType, page + 1, lastPage)
  }

  /** Which of two empty pages bounds the walk does not matter. */
  lemma {:induction false} PagesFromAnyBound(mediaList: Query -> seq<AssetRecord>, minDateModified: int, assetType: string,
                                             page: nat, lastPage: nat, otherPage: nat)
    requires page <= lastPage <= otherPage
    requires mediaList(QueryFor(minDateModified, assetType, lastPage)) == []
    ensures PagesFrom(mediaList, minDateModified, assetType, page, lastPage)
         == PagesFrom(mediaList, minDateModified, assetType, page, otherPage)
    decreases lastPage - page
  {
    if page < lastPage {
      PagesFromAnyBound(mediaList, minDateModified, assetType, page + 1, lastPage, otherPage);
    }
  }

  /** A batch: records by asset id, as `asset_dict`. */
  type Batch = map<string, AssetRecord>

  predicate Keyed(b: Batch) {
    forall id :: id in b ==> b[id].id == id
  }

  /** One record taken in by `handle`: it goes in under its id (replacing
      an earlier record with the same id), and the batch is flushed and
      cleared as soon as it holds PAGE_SIZE ids. */
  function Push(acc: (seq<Batch>, Batch), a: AssetRecord): (r: (seq<Batch>, Batch))
    ensures acc.0 <= r.0 && |r.0| <= |acc.0| + 1
    ensures |r.1| > 0 || |r.0| == |acc.0| + 1
    ensures |acc.1| < PAGE_SIZE ==> |r.1| < PAGE_SIZE
  {
    var next := acc.1[a.id := a];
    assert |next| <= |acc.1| + 1;
    if |next| == PAGE_SIZE then (acc.0 + [next], map[]) else (acc.0, next)
  }

  /** The batches flushed so far and the batch being filled, after `handle`
      has taken in `assets`. */
  function Accumulate(assets: seq<AssetRecord>): (r: (seq<Batch>, Batch))
    ensures |r.1| < PAGE_SIZE
    ensures assets != [] ==> |r.0| > 0 || |r.1| > 0
    decreases |assets|
  {
    if assets == [] then ([], map[]) else Push(Accumulate(assets[..|assets| - 1]), assets[|assets| - 1])
  }

  /** Every batch `handle` flushes: the full ones, then the remainder if
      it is not empty. */
  function Batches(assets: seq<AssetRecord>): (r: seq<Batch>)
    ensures assets != [] <==> r != []
  {
    var acc := Accumulate(assets);
    if |acc.1| > 0 then acc.0 + [acc.1] else acc.0
  }

  /** The last record of `assets` with id `id`. */
  function Latest(assets: seq<AssetRecord>, id: string): (r: Option<AssetRecord>)
    ensures r.None? <==> forall i :: 0 <= i < |assets| ==> assets[i].id != id
    ensures r.Some? ==> r.value.id == id && r.value in assets
    decreases |assets|
  {
    if assets == [] then None
    else if assets[|assets| - 1].id == id then Some(assets[|assets| - 1])
    else
      var init := assets[..|assets| - 1];
      assert forall i :: 0 <= i < |init| ==> init[i] == assets[i];
      Latest(init, id)
  }

  /** `rec` is filed under `id` in one of the flushed batches. */
  ghost predicate InSomeBatch(done: seq<Batch>, id: string, rec: AssetRecord) {
    exists k :: 0 <= k < |done| && id in done[k] && done[k][id] == rec
  }

  /** `rec` is what the accumulation holds for `id`: in the batch being
      filled if the id is there, otherwise in a flushed batch. */
  ghost predicate Filed(acc: (seq<Batch>, Batch), id: string, rec: AssetRecord) {
    if id in acc.1 then acc.1[id] == rec else InSomeBatch(acc.0, id, rec)
  }

  /** The shape of the accumulation: full batches of exactly PAGE_SIZE
      records, a batch being filled that is below it, and every record
      filed under its own id. */
  ghost predicate Shaped(acc: (seq<Batch>, Batch)) {
    && |acc.1| < PAGE_SIZE
    && Keyed(acc.1)
    && forall k :: 0 <= k < |acc.0| ==> |acc.0[k]| == PAGE_SIZE && Keyed(acc.0[k])
  }

  lemma PushShaped(acc: (seq<Batch>, Batch), a: AssetRecord)
    requires Shaped(acc)
    ensures Shaped(Push(acc, a))
  {
    var next := acc.1[a.id := a];
    assert |next| <= |acc.1| + 1;
    if |next| == PAGE_SIZE {
      var done := acc.0 + [next];
      assert forall k :: 0 <= k < |acc.0| ==> done[k] == acc.0[k];
    }
  }

  lemma PushFilesNewRecord(acc: (seq<Batch>, Batch), a: AssetRecord)
    ensures Filed(Push(acc, a), a.id, a)
  {
    var next := acc.1[a.id := a];
    if |next| == PAGE_SIZE {
      assert (acc.0 + [next])[|acc.0|] == next;
    }
  }

  lemma PushKeepsFiled(acc: (seq<Batch>, Batch), a: AssetRecord, id: string, rec: AssetRecord)
    requires Filed(acc, id, rec) && id != a.id
    ensures Filed(Push(acc, a), id, rec)
  {
    var next := acc.1[a.id := a];
    if |next| == PAGE_SIZE {
      var done := acc.0 + [next];
      if id in acc.1 {
        assert done[|acc.0|] == next;
      } else {
        var k :| 0 <= k < |acc.0| && id in acc.0[k] && acc.0[k][id] == rec;
        assert done[k] == acc.0[k];
      }
    }
  }

  lemma {:induction false} AccumulateShaped(assets: seq<AssetRecord>)
    ensures Shaped(Accumulate(assets))
    decreases |assets|
  {
    if assets != [] {
      AccumulateShaped(assets[..|assets| - 1]);
      PushShaped(Accumulate(assets[..|assets| - 1]), assets[|assets| - 1]);
    }
  }

  lemma {:induction false} AccumulateKeepsLatest(assets: seq<AssetRecord>, id: string)
    requires Latest(assets, id).Some?
    ensures Filed(Accumulate(assets), id, Latest(assets, id).value)
    decreases |assets|
  {
    var init := assets[..|assets| - 1];
    var a := assets[|assets| - 1];
    if a.id == id {
      PushFilesNewRecord(Accumulate(init), a);
    } else {
      AccumulateKeepsLatest(init, id);
      PushKeepsFiled(Accumulate(init), a, id, Latest(init, id).value);
    }
  }

  /** Every flushed batch holds between 1 and PAGE_SIZE records, each
      filed under its own id. */
  lemma BatchesBounded(assets: seq<AssetRecord>)
    ensures forall k :: 0 <= k < |Batches(assets)| ==>
      1 <= |Batches(assets)[k]| <= PAGE_SIZE && Keyed(Batches(assets)[k])
  {
    AccumulateShaped(assets);
    var acc := Accumulate(assets);
    assert forall k :: 0 <= k < |acc.0| ==> Batches(assets)[k] == acc.0[k];
  }

  /** Every id `get_assets` yields reaches some flushed batch together with
      the last record yielded for it. */
  lemma BatchesKeepLatest(assets: seq<AssetRecord>, i: nat)
    requires i < |assets|
    ensures InSomeBatch(Batches(assets), assets[i].id, Latest(assets, assets[i].id).value)
  {
    var id := assets[i].id;
    var acc := Accumulate(assets);
    AccumulateKeepsLatest(assets, id);
    if id in acc.1 {
      assert Batches(assets)[|acc.0|] == acc.1;
    } else {
      var k :| 0 <= k < |acc.0| && id in acc.0[k] && acc.0[k][id] == Latest(assets, id).value;
      assert Batches(assets)[k] == acc.0[k];
    }
  }

  /** The flushed batches only grow as more records come in, and the final
      flush only appends. */
  lemma {:induction false} AccumulateGrows(assets: seq<AssetRecord>, j: nat)
    requires j <= |assets|
    ensures Accumulate(assets[..j]).0 <= Accumulate(assets).0
    decreases |assets| - j
  {
    if j < |assets| {
      var init := assets[..|assets| - 1];
      assert assets[..j] == init[..j];
      AccumulateGrows(init, j);
    } else {
      assert assets[..j] == assets;
    }
  }

  /** One more record taken in: it is filed under its id, and a batch that
      reaches PAGE_SIZE is flushed and a fresh one started. */
  lemma AccumulateSnoc(assets: seq<AssetRecord>, i: nat, flushed: seq<Batch>, batch: Batch)
    requires i < |assets| && Accumulate(assets[..i]) == (flushed, batch)
    ensures var next := batch[assets[i].id := assets[i]];
      Accumulate(assets[..i + 1]) == if |next| == PAGE_SIZE then (flushed + [next], map[]) else (flushed, next)
  {
    assert assets[..i + 1][..i] == assets[..i];
  }
}
