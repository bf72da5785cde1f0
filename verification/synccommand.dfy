/** `BaseBynderSyncCommand`: page through the assets Bynder reports as
    recently modified, and bring the stored objects that are behind up to
    date, a batch at a time. */
module SyncCommand {
  import opened Wrappers
  import opened AssetData
  import opened AssetCommon
  import opened Rows
  import opened Store
  import opened Batching
  import opened Refresh

  /** `modified_within_days`. */
  const MODIFIED_WITHIN_DAYS: int := 1
  const SECONDS_PER_DAY: int := 86400

  /** `min_date_modified`: `modified_within_days` days before `now`. */
  function MinDateModified(now: int): (t: int)
    ensures now - t == 86400
  {
    now - MODIFIED_WITHIN_DAYS * SECONDS_PER_DAY
  }

  class BynderSyncCommand {
    /** The command's model table. */
    const db: Database
    /** `bynder_asset_type`: "image", "document", "video", or "" for any. */
    const assetType: string
    /** Computed once per command (a cached property). */
    const minDateModified: int
    /** `asset_bank_client.media_list`. */
    const mediaList: Query -> seq<AssetRecord>
    /** The model's update, as the command runs it. */
    const updater: Updater

    constructor(db: Database, assetType: string, now: int, mediaList: Query -> seq<AssetRecord>,
                env: Env, refetchFullRecord: bool, mediaInfo: string -> AssetRecord)
      ensures this.db == db && this.assetType == assetType && this.mediaList == mediaList
      ensures minDateModified == MinDateModified(now)
      ensures updater == MakeUpdater(env, refetchFullRecord, mediaInfo)
      ensures Faithful(updater) && KeepsIds(updater)
    {
      this.db := db;
      this.assetType := assetType;
      this.minDateModified := MinDateModified(now);
      this.mediaList := mediaList;
      this.updater := MakeUpdater(env, refetchFullRecord, mediaInfo);
    }

    /** `get_assets`: request pages 1, 2, 3, ... and take in their
        records until a page comes back empty (a short page does not stop
        it). The ghost `lastPage` is some page known to be empty;
        `requested` lists the queries sent. */
    method GetAssets(ghost lastPage: nat) returns (assets: seq<AssetRecord>, ghost requested: seq<Query>)
      requires 1 <= lastPage && mediaList(QueryFor(minDateModified, assetType, lastPage)) == []
      ensures assets == PagesFrom(mediaList, minDateModified, assetType, 1, lastPage)
      ensures 1 <= |requested| <= lastPage
      ensures forall k :: 0 <= k < |requested| ==> requested[k] == QueryFor(minDateModified, assetType, k + 1)
      ensures mediaList(requested[|requested| - 1]) == []
      ensures forall k :: 0 <= k < |requested| - 1 ==> mediaList(requested[k]) != []
    {
      var page: nat := 1;
      assets := [];
      requested := [];
      while true
        invariant 1 <= page <= lastPage
        invariant |requested| == page - 1
        invariant forall k :: 0 <= k < |requested| ==>
          requested[k] == QueryFor(minDateModified, assetType, k + 1) && mediaList(requested[k]) != []
        invariant assets + PagesFrom(mediaList, minDateModified, assetType, page, lastPage)
               == PagesFrom(mediaList, minDateModified, assetType, 1, lastPage)
        decreases lastPage - page
      {
        var query := QueryFor(minDateModified, assetType, page);
        var results := mediaList(query);
        requested := requested + [query];
        if results == [] {
          assert assets == PagesFrom(mediaList, minDateModified, assetType, 1, lastPage);
          return;
        }
        assets := assets + results;
        page := page + 1;
      }
    }

    /** `get_outdated_objects`: build the OR of one condition per batch
        record, then filter the table with it. The batch is non-empty, as
        every batch `handle` hands over is (base.py:32 and 38). */
    method GetOutdatedObjects(batch: Batch) returns (ids: set<string>)
      requires batch != map[]
      ensures ids == OutdatedIds(db.rows, batch)
    {
      // The Q object: one (bynder_id, dateModified) condition per record.
      var q: set<(string, int)> := {};
      var pending := batch.Keys;
      while pending != {}
        invariant pending <= batch.Keys
        invariant forall c :: c in q <==> c.0 in batch && c.0 !in pending && c.1 == batch[c.0].dateModified
        decreases |pending|
      {
        var id :| id in pending;
        q := q + {(id, batch[id].dateModified)};
        pending := pending - {id};
      }
      ids := set id | id in db.rows && RowCommon(db.rows[id]).lastModified.Some?
                      && exists c :: c in q && c.0 == id && RowCommon(db.rows[id]).lastModified.value < c.1;
      forall id | id in OutdatedIds(db.rows, batch)
        ensures id in ids
      {
        assert (id, batch[id].dateModified) in q;
      }
    }

    /** `update_object(obj, record)`: update the instance and save it; an
        exception propagates before the save. */
    method UpdateObject(id: string, record: AssetRecord) returns (outcome: Outcome<Error>)
      requires db.Valid() && KeepsIds(updater) && id in db.rows
      modifies db
      ensures db.Valid()
      ensures outcome == Updated(updater, old(db.rows)[id], record).outcome
      ensures outcome.Pass? ==> && db.rows == old(db.rows)[id := Updated(updater, old(db.rows)[id], record).state]
                                && db.media == old(db.media) + RowFiles(Updated(updater, old(db.rows)[id], record).state)
      ensures outcome.Fail? ==> db.rows == old(db.rows) && db.media == old(db.media)
    {
      var data := record;
      if updater.refetchFullRecord {
        data := updater.mediaInfo(record.id);
      }
      var step := updater.apply(db.rows[id], data);
      if step.outcome.Fail? {
        return step.outcome;
      }
      db.SaveExisting(id, step.state);
      return Pass;
    }

    /** One turn of `update_outdated_objects`' loop: update and save the
        selected object `id`, one of those still `remaining`. */
    method UpdateNextObject(ghost before: map<string, Row>, batch: Batch, ghost remaining: set<string>, id: string)
      returns (outcome: Outcome<Error>)
      requires db.Valid() && KeepsIds(updater)
      requires id in OutdatedIds(before, batch) && id in remaining
      requires db.rows == PartlyRefreshed(updater, before, batch, remaining)
      modifies db
      ensures db.Valid() && db.rows.Keys == before.Keys
      ensures outcome == Updated(updater, before[id], batch[id]).outcome
      ensures outcome.Pass? ==> db.rows == PartlyRefreshed(updater, before, batch, remaining - {id})
      ensures outcome.Fail? ==> db.rows == old(db.rows)
      ensures old(db.media) <= db.media
    {
      assert db.rows[id] == before[id];
      outcome := UpdateObject(id, batch[id]);
      if outcome.Pass? {
        PartlyRefreshedStep(updater, before, batch, remaining, id);
      }
    }

    /** The loop of `update_outdated_objects` over the selected objects
        `outdated`, in whatever order the table returns them; the first
        exception ends the batch. On an exception the ghost `failed` is the
        object whose update raised and `remaining` the objects not yet
        saved (it among them). */
    method UpdateEach(batch: Batch, outdated: set<string>)
      returns (outcome: Outcome<Error>, ghost remaining: set<string>, ghost failed: string)
      requires batch != map[]
      requires db.Valid() && KeepsIds(updater) && outdated == OutdatedIds(db.rows, batch)
      modifies db
      ensures db.Valid() && db.rows.Keys == old(db.rows).Keys
      ensures outcome.Pass? <==> BatchSucceeds(updater, old(db.rows), batch)
      ensures outcome.Pass? ==> db.rows == PartlyRefreshed(updater, old(db.rows), batch, {})
      ensures outcome.Fail? ==> && StoppedAt(updater, old(db.rows), batch, remaining, failed)
                                && outcome == Updated(updater, old(db.rows)[failed], batch[failed]).outcome
                                && db.rows == PartlyRefreshed(updater, old(db.rows), batch, remaining)
      ensures old(db.media) <= db.media
    {
      ghost var before := db.rows;
      var todo := outdated;
      remaining, failed := {}, "";
      PartlyRefreshedNone(updater, before, batch);
      outcome := Pass;
      while todo != {}
        invariant todo <= outdated
        invariant outcome.Pass?
        invariant db.Valid() && db.rows == PartlyRefreshed(updater, before, batch, todo)
        invariant old(db.media) <= db.media
        invariant forall id :: id in outdated && id !in todo ==> Updated(updater, before[id], batch[id]).outcome.Pass?
        decreases |todo|
      {
        var id :| id in todo;
        outcome := UpdateNextObject(before, batch, todo, id);
        if outcome.Fail? {
          remaining, failed := todo, id;
          StoppedAtFails(updater, before, batch, remaining, failed);
          return;
        }
        todo := todo - {id};
      }
      assert BatchSucceeds(updater, before, batch);
    }

    /** `update_outdated_objects`: update each selected object with its own
        record; the first exception ends the batch. Only called with a
        non-empty batch (base.py:32 and 38). */
    method UpdateOutdatedObjects(batch: Batch)
      returns (outcome: Outcome<Error>, ghost remaining: set<string>, ghost failed: string)
      requires batch != map[]
      requires db.Valid() && KeepsIds(updater)
      modifies db
      ensures db.Valid() && db.rows.Keys == old(db.rows).Keys
      ensures outcome.Pass? <==> BatchSucceeds(updater, old(db.rows), batch)
      ensures outcome.Pass? ==> db.rows == Refreshed(updater, old(db.rows), batch)
      ensures outcome.Fail? ==> && StoppedAt(updater, old(db.rows), batch, remaining, failed)
                                && outcome == Updated(updater, old(db.rows)[failed], batch[failed]).outcome
                                && db.rows == PartlyRefreshed(updater, old(db.rows), batch, remaining)
      ensures old(db.media) <= db.media
    {
      var outdated := GetOutdatedObjects(batch);
      PartlyRefreshedAll(updater, db.rows, batch);
      outcome, remaining, failed := UpdateEach(batch, outdated);
    }

    /** One hand-over of `handle` to `update_outdated_objects`, after the
        batches `flushed` have all gone through. */
    method Flush(ghost before: map<string, Row>, ghost flushed: seq<Batch>, batch: Batch)
      returns (outcome: Outcome<Error>, ghost remaining: set<string>, ghost failed: string)
      requires batch != map[]
      requires db.Valid() && KeepsIds(updater)
      requires RunSucceeds(updater, before, flushed) && db.rows == RefreshAll(updater, before, flushed)
      modifies db
      ensures db.Valid() && db.rows.Keys == old(db.rows).Keys
      ensures outcome.Pass? <==> RunSucceeds(updater, before, flushed + [batch])
      ensures outcome.Pass? ==> db.rows == RefreshAll(updater, before, flushed + [batch])
      ensures outcome.Fail? ==> RunStopped(updater, before, flushed + [batch], remaining, failed, db.rows)
      ensures old(db.media) <= db.media
    {
      outcome, remaining, failed := UpdateOutdatedObjects(batch);
      RunSnoc(updater, before, flushed, batch);
      assert (flushed + [batch])[..|flushed|] == flushed;
    }

    /** One turn of `handle`'s loop: file `assets[i]` under its id, and
        hand the batch over when it reaches PAGE_SIZE ids. The ghost
        `flushed` lists the batches handed over so far. */
    method AddRecord(ghost before: map<string, Row>, assets: seq<AssetRecord>, i: nat,
                     ghost flushed: seq<Batch>, assetDict: Batch)
      returns (outcome: Outcome<Error>, nextDict: Batch, ghost nextFlushed: seq<Batch>,
               ghost remaining: set<string>, ghost failed: string)
      requires db.Valid() && KeepsIds(updater)
      requires i < |assets| && (flushed, assetDict) == Accumulate(assets[..i])
      requires RunSucceeds(updater, before, flushed) && db.rows == RefreshAll(updater, before, flushed)
      modifies db
      ensures db.Valid() && db.rows.Keys == before.Keys
      ensures outcome.Pass? ==> && (nextFlushed, nextDict) == Accumulate(assets[..i + 1])
                                && RunSucceeds(updater, before, nextFlushed)
                                && db.rows == RefreshAll(updater, before, nextFlushed)
      ensures outcome.Fail? ==> && nextFlushed == Accumulate(assets[..i + 1]).0
                                && !RunSucceeds(updater, before, nextFlushed)
                                && RunStopped(updater, before, nextFlushed, remaining, failed, db.rows)
      ensures old(db.media) <= db.media
    {
      AccumulateSnoc(assets, i, flushed, assetDict);
      nextDict := assetDict[assets[i].id := assets[i]];
      nextFlushed := flushed;
      remaining, failed := {}, "";
      outcome := Pass;
      if |nextDict| == PAGE_SIZE {
        outcome, remaining, failed := Flush(before, flushed, nextDict);
        nextFlushed := flushed + [nextDict];
        nextDict := map[];
        if outcome.Fail? {
          RunStoppedFails(updater, before, nextFlushed, remaining, failed, db.rows);
        }
      }
    }

    /** The loop of `handle` over the records `get_assets` yields,
        flushing a batch to `update_outdated_objects` whenever it holds
        PAGE_SIZE ids and the non-empty remainder at the end. The ghost
        `flushed` lists the batches handed over. */
    method HandleRecords(assets: seq<AssetRecord>)
      returns (outcome: Outcome<Error>, ghost flushed: seq<Batch>, ghost remaining: set<string>, ghost failed: string)
      requires db.Valid() && KeepsIds(updater)
      modifies db
      ensures db.Valid() && db.rows.Keys == old(db.rows).Keys
      ensures flushed <= Batches(assets)
      ensures outcome.Pass? ==> flushed == Batches(assets)
                                && RunSucceeds(updater, old(db.rows), flushed)
                                && db.rows == RefreshAll(updater, old(db.rows), flushed)
      ensures outcome.Fail? ==> !RunSucceeds(updater, old(db.rows), flushed)
                                && RunStopped(updater, old(db.rows), flushed, remaining, failed, db.rows)
      ensures old(db.media) <= db.media
    {
      ghost var before := db.rows;
      var assetDict: Batch := map[];
      flushed := [];
      remaining, failed := {}, "";
      var i := 0;
      while i < |assets|
        invariant 0 <= i <= |assets|
        invariant (flushed, assetDict) == Accumulate(assets[..i])
        invariant db.Valid() && db.rows.Keys == before.Keys
        invariant RunSucceeds(updater, before, flushed)
        invariant db.rows == RefreshAll(updater, before, flushed)
        invariant old(db.media) <= db.media
      {
        outcome, assetDict, flushed, remaining, failed := AddRecord(before, assets, i, flushed, assetDict);
        if outcome.Fail? {
          AccumulateGrows(assets, i + 1);
          return;
        }
        i := i + 1;
      }
      assert assets[..i] == assets;
      if |assetDict| > 0 {
        outcome, remaining, failed := Flush(before, flushed, assetDict);
        flushed := flushed + [assetDict];
        if outcome.Fail? {
          RunStoppedFails(updater, before, flushed, remaining, failed, db.rows);
        }
      } else {
        outcome := Pass;
      }
    }

    /** `handle`: page through the listing, then batch and update. */
    method Handle(ghost lastPage: nat)
      returns (outcome: Outcome<Error>, ghost flushed: seq<Batch>, ghost remaining: set<string>, ghost failed: string)
      requires 1 <= lastPage && mediaList(QueryFor(minDateModified, assetType, lastPage)) == []
      requires db.Valid() && KeepsIds(updater)
      modifies db
      ensures db.Valid() && db.rows.Keys == old(db.rows).Keys
      ensures var assets := PagesFrom(mediaList, minDateModified, assetType, 1, lastPage);
        && flushed <= Batches(assets)
        && (outcome.Pass? ==> flushed == Batches(assets)
                              && RunSucceeds(updater, old(db.rows), flushed)
                              && db.rows == RefreshAll(updater, old(db.rows), flushed))
        && (outcome.Fail? ==> !RunSucceeds(updater, old(db.rows), flushed)
                              && RunStopped(updater, old(db.rows), flushed, remaining, failed, db.rows))
      ensures old(db.media) <= db.media
    {
      ghost var requested;
      var assets;
      assets, requested := GetAssets(lastPage);
      outcome, flushed, remaining, failed := HandleRecords(assets);
    }
  }
}
