/** What one batch does to the table: `get_outdated_objects` picks the
    stored objects that are older than their record, and
    `update_outdated_objects` updates and saves each of them. */
module Refresh {
  import opened Wrappers
  import opened AssetData
  import opened AssetCommon
  import opened Rows
  import opened Batching

  /** How a sync command updates one object: `apply` is the model's
      `update_from_asset_data` (which `Faithful` ties to `ApplyRecord`),
      with the collaborators, and whether it first re-fetches the full
      record with `media_info` (as `update_stale_images` does, because the
      listing lacks focus points). */
  datatype Updater = Updater(env: Env, refetchFullRecord: bool, mediaInfo: string -> AssetRecord,
                             apply: (Row, AssetRecord) -> Step<Row>)

  /** The updater runs the model's own `update_from_asset_data`, without
      `force_download`. */
  ghost predicate Faithful(u: Updater) {
    forall r, d :: u.apply(r, d) == ApplyRecord(r, d, u.env, false)
  }

  /** An update never moves an object to another `bynder_id`. */
  ghost predicate KeepsIds(u: Updater) {
    forall r, d :: RowCommon(u.apply(r, d).state).bynderId == RowCommon(r).bynderId
  }

  /** The updater of a sync command over `env`. */
  function MakeUpdater(env: Env, refetchFullRecord: bool, mediaInfo: string -> AssetRecord): (u: Updater)
    ensures Faithful(u) && KeepsIds(u)
    ensures u.env == env && u.refetchFullRecord == refetchFullRecord && u.mediaInfo == mediaInfo
  {
    var u := Updater(env, refetchFullRecord, mediaInfo, (r, d) => ApplyRecord(r, d, env, false));
    assert KeepsIds(u) by {
      forall r, d ensures RowCommon(u.apply(r, d).state).bynderId == RowCommon(r).bynderId {
        ApplyRecordKeepsId(r, d, env, false);
      }
    }
    u
  }

  /** The record `update_from_asset_data` receives for a batch record. */
  function DataFor(u: Updater, record: AssetRecord): AssetRecord {
    if u.refetchFullRecord then u.mediaInfo(record.id) else record
  }

  /** `update_object(obj, record)`. */
  function Updated(u: Updater, r: Row, record: AssetRecord): (step: Step<Row>)
    ensures KeepsIds(u) ==> RowCommon(step.state).bynderId == RowCommon(r).bynderId
    ensures Faithful(u) ==> step == ApplyRecord(r, DataFor(u, record), u.env, false)
  {
    u.apply(r, DataFor(u, record))
  }

  /** The objects `get_outdated_objects` selects for a non-empty batch:
      the OR, over the batch, of `bynder_id = id AND bynder_last_modified
      < dateModified`. A NULL timestamp fails the comparison. `handle`
      never hands over an empty batch (base.py:32 and 38); for one, the
      empty `Q()` would select every object, where this selects none. */
  function OutdatedIds(rows: map<string, Row>, batch: Batch): (ids: set<string>)
    ensures ids <= rows.Keys && ids <= batch.Keys
  {
    set id | id in rows && id in batch && RowCommon(rows[id]).lastModified.Some?
                                       && RowCommon(rows[id]).lastModified.value < batch[id].dateModified
  }

  /** The stale selection is the complement of `is_up_to_date` among the
      stored objects that have a timestamp; equal timestamps and never
      synced objects are left alone. */
  lemma OutdatedIsNotUpToDate(rows: map<string, Row>, batch: Batch, id: string)
    requires id in rows && id in batch
    ensures id in OutdatedIds(rows, batch) <==>
      RowCommon(rows[id]).lastModified.Some? && !IsUpToDate(RowCommon(rows[id]).lastModified, batch[id])
    ensures RowCommon(rows[id]).lastModified.None? ==> id !in OutdatedIds(rows, batch)
    ensures RowCommon(rows[id]).lastModified == Some(batch[id].dateModified) ==> id !in OutdatedIds(rows, batch)
  {
  }

  /** Every selected object's update succeeds. */
  ghost predicate BatchSucceeds(u: Updater, rows: map<string, Row>, batch: Batch) {
    forall id :: id in OutdatedIds(rows, batch) ==> Updated(u, rows[id], batch[id]).outcome.Pass?
  }

  /** The table after `update_outdated_objects(batch)` has run to the end:
      each selected object updated with its own record, the rest as they
      were. */
  function Refreshed(u: Updater, rows: map<string, Row>, batch: Batch): (r: map<string, Row>)
    ensures r.Keys == rows.Keys
  {
    map id | id in rows :: if id in OutdatedIds(rows, batch) then Updated(u, rows[id], batch[id]).state else rows[id]
  }

  /** The table after a run of batches. */
  function RefreshAll(u: Updater, rows: map<string, Row>, batches: seq<Batch>): (r: map<string, Row>)
    ensures r.Keys == rows.Keys
    decreases |batches|
  {
    if batches == [] then rows else Refreshed(u, RefreshAll(u, rows, batches[..|batches| - 1]), batches[|batches| - 1])
  }

  /** Every batch of the run succeeds against the table as it stands. */
  ghost predicate RunSucceeds(u: Updater, rows: map<string, Row>, batches: seq<Batch>)
    decreases |batches|
  {
    batches != [] ==>
      RunSucceeds(u, rows, batches[..|batches| - 1])
      && BatchSucceeds(u, RefreshAll(u, rows, batches[..|batches| - 1]), batches[|batches| - 1])
  }

  /** The record an update uses is at least as new as the batch record it
      was selected by (always so without re-fetching). */
  ghost predicate FreshEnough(u: Updater, batch: Batch) {
    u.refetchFullRecord ==> forall id :: id in batch ==> u.mediaInfo(batch[id].id).dateModified >= batch[id].dateModified
  }

  /** Nothing is outdated against a batch: `update_outdated_objects` would
      touch no object. */
  ghost predicate Settled(rows: map<string, Row>, batch: Batch) {
    forall id :: id in rows && id in batch && RowCommon(rows[id]).lastModified.Some? ==>
      RowCommon(rows[id]).lastModified.value >= batch[id].dateModified
  }

  /** Against a settled table a batch selects nothing, succeeds, and
      changes nothing. */
  lemma SettledRefreshIsIdentity(u: Updater, rows: map<string, Row>, batch: Batch)
    requires Settled(rows, batch)
    ensures OutdatedIds(rows, batch) == {}
    ensures BatchSucceeds(u, rows, batch)
    ensures Refreshed(u, rows, batch) == rows
  {
    if id :| id in OutdatedIds(rows, batch) {
      assert false;
    }
  }

  /** Updating every selected object settles the table against the batch:
      each updated object takes the timestamp of a record at least as new
      as the batch's. */
  lemma RefreshSettles(u: Updater, rows: map<string, Row>, batch: Batch)
    requires Faithful(u) && BatchSucceeds(u, rows, batch) && FreshEnough(u, batch)
    ensures Settled(Refreshed(u, rows, batch), batch)
  {
    var r := Refreshed(u, rows, batch);
    forall id | id in r && id in batch && RowCommon(r[id]).lastModified.Some?
      ensures RowCommon(r[id]).lastModified.value >= batch[id].dateModified
    {
      if id in OutdatedIds(rows, batch) {
        assert Updated(u, rows[id], batch[id]) == ApplyRecord(rows[id], DataFor(u, batch[id]), u.env, false);
        ApplyRecordOutcome(rows[id], DataFor(u, batch[id]), u.env, false);
      }
    }
  }

  /** A later batch only moves timestamps forward, so a table settled
      against one batch stays settled against it. */
  lemma RefreshKeepsSettled(u: Updater, rows: map<string, Row>, earlier: Batch, batch: Batch)
    requires Faithful(u) && Settled(rows, earlier)
    requires BatchSucceeds(u, rows, batch) && FreshEnough(u, batch)
    ensures Settled(Refreshed(u, rows, batch), earlier)
  {
    var r := Refreshed(u, rows, batch);
    forall id | id in r && id in earlier && RowCommon(r[id]).lastModified.Some?
      ensures RowCommon(r[id]).lastModified.value >= earlier[id].dateModified
    {
      if id in OutdatedIds(rows, batch) {
        assert Updated(u, rows[id], batch[id]) == ApplyRecord(rows[id], DataFor(u, batch[id]), u.env, false);
        ApplyRecordOutcome(rows[id], DataFor(u, batch[id]), u.env, false);
      }
    }
  }

  /** Updates keep every object under its own `bynder_id`. */
  lemma RefreshedKeepsIds(u: Updater, rows: map<string, Row>, batch: Batch)
    requires KeepsIds(u)
    ensures forall id :: id in rows ==> RowCommon(Refreshed(u, rows, batch)[id]).bynderId == RowCommon(rows[id]).bynderId
  {
    forall id | id in rows
      ensures RowCommon(Refreshed(u, rows, batch)[id]).bynderId == RowCommon(rows[id]).bynderId
    {
      if id in OutdatedIds(rows, batch) {
        assert RowCommon(u.apply(rows[id], DataFor(u, batch[id])).state).bynderId == RowCommon(rows[id]).bynderId;
      }
    }
  }

  ghost predicate AllFreshEnough(u: Updater, batches: seq<Batch>) {
    forall k :: 0 <= k < |batches| ==> FreshEnough(u, batches[k])
  }

  ghost predicate SettledAll(rows: map<string, Row>, batches: seq<Batch>) {
    forall k :: 0 <= k < |batches| ==> Settled(rows, batches[k])
  }

  /** A successful run leaves no stored object outdated against any
      record it saw. */
  lemma {:induction false} RunSettles(u: Updater, rows: map<string, Row>, batches: seq<Batch>)
    requires Faithful(u) && RunSucceeds(u, rows, batches) && AllFreshEnough(u, batches)
    ensures SettledAll(RefreshAll(u, rows, batches), batches)
    decreases |batches|
  {
    if batches != [] {
      var init := batches[..|batches| - 1];
      var last := batches[|batches| - 1];
      var before := RefreshAll(u, rows, init);
      assert forall k :: 0 <= k < |init| ==> init[k] == batches[k];
      RunSettles(u, rows, init);
      RefreshSettles(u, before, last);
      forall k | 0 <= k < |init|
        ensures Settled(Refreshed(u, before, last), batches[k])
      {
        RefreshKeepsSettled(u, before, init[k], last);
      }
    }
  }

  /** Running the same batches over a table settled against all of them
      succeeds and changes nothing. */
  lemma {:induction false} SettledRunIsIdentity(u: Updater, rows: map<string, Row>, batches: seq<Batch>)
    requires SettledAll(rows, batches)
    ensures RunSucceeds(u, rows, batches)
    ensures RefreshAll(u, rows, batches) == rows
    decreases |batches|
  {
    if batches != [] {
      var init := batches[..|batches| - 1];
      assert forall k :: 0 <= k < |init| ==> init[k] == batches[k];
      SettledRunIsIdentity(u, rows, init);
      SettledRefreshIsIdentity(u, rows, batches[|batches| - 1]);
    }
  }

  /** A second sync over the same listing right after a successful one is
      a no-op. */
  lemma SecondRunIsNoOp(u: Updater, rows: map<string, Row>, batches: seq<Batch>)
    requires Faithful(u) && RunSucceeds(u, rows, batches) && AllFreshEnough(u, batches)
    ensures var after := RefreshAll(u, rows, batches);
      RunSucceeds(u, after, batches) && RefreshAll(u, after, batches) == after
  {
    RunSettles(u, rows, batches);
    SettledRunIsIdentity(u, RefreshAll(u, rows, batches), batches);
  }

  /** One more batch at the end of a run. */
  lemma RunSnoc(u: Updater, rows: map<string, Row>, batches: seq<Batch>, batch: Batch)
    ensures RefreshAll(u, rows, batches + [batch]) == Refreshed(u, RefreshAll(u, rows, batches), batch)
    ensures RunSucceeds(u, rows, batches + [batch]) <==>
      RunSucceeds(u, rows, batches) && BatchSucceeds(u, RefreshAll(u, rows, batches), batch)
  {
    assert (batches + [batch])[..|batches|] == batches;
  }

  /** The table part-way through `update_outdated_objects`: the selected
      objects not in `remaining` have been updated and saved. */
  function PartlyRefreshed(u: Updater, rows: map<string, Row>, batch: Batch, remaining: set<string>): (r: map<string, Row>)
    ensures r.Keys == rows.Keys
  {
    map id | id in rows :: if id in OutdatedIds(rows, batch) && id !in remaining then Updated(u, rows[id], batch[id]).state else rows[id]
  }

  /** Updating one more selected object changes that object's row only. */
  lemma PartlyRefreshedStep(u: Updater, rows: map<string, Row>, batch: Batch, remaining: set<string>, id: string)
    requires id in OutdatedIds(rows, batch) && id in remaining
    ensures PartlyRefreshed(u, rows, batch, remaining - {id})
         == PartlyRefreshed(u, rows, batch, remaining)[id := Updated(u, rows[id], batch[id]).state]
  {
  }

  /** Before any selected object is updated the table is as it was. */
  lemma PartlyRefreshedNone(u: Updater, rows: map<string, Row>, batch: Batch)
    ensures PartlyRefreshed(u, rows, batch, OutdatedIds(rows, batch)) == rows
  {
  }

  /** Once every selected object is updated the table is the batch's
      result. */
  lemma PartlyRefreshedAll(u: Updater, rows: map<string, Row>, batch: Batch)
    ensures PartlyRefreshed(u, rows, batch, {}) == Refreshed(u, rows, batch)
  {
  }

  /** `update_outdated_objects(batch)` stopped at the selected object
      `failed`: it and the objects still `remaining` were not saved, and
      every selected object done before it was updated successfully. */
  ghost predicate StoppedAt(u: Updater, rows: map<string, Row>, batch: Batch, remaining: set<string>, failed: string) {
    && remaining <= OutdatedIds(rows, batch)
    && failed in remaining
    && Updated(u, rows[failed], batch[failed]).outcome.Fail?
    && forall id :: id in OutdatedIds(rows, batch) && id !in remaining ==> Updated(u, rows[id], batch[id]).outcome.Pass?
  }

  /** A batch that stopped at a failing object does not succeed, and the
      table it leaves holds the failing object as it was. */
  lemma StoppedAtFails(u: Updater, rows: map<string, Row>, batch: Batch, remaining: set<string>, failed: string)
    requires StoppedAt(u, rows, batch, remaining, failed)
    ensures !BatchSucceeds(u, rows, batch)
    ensures PartlyRefreshed(u, rows, batch, remaining)[failed] == rows[failed]
  {
  }

  /** A run of batches that stopped inside its last batch: every earlier
      batch went through and the last one stopped at `failed`, leaving
      `table`. */
  ghost predicate RunStopped(u: Updater, rows: map<string, Row>, batches: seq<Batch>, remaining: set<string>, failed: string,
                             table: map<string, Row>) {
    && batches != []
    && var prior := RefreshAll(u, rows, batches[..|batches| - 1]);
    && RunSucceeds(u, rows, batches[..|batches| - 1])
    && StoppedAt(u, prior, batches[|batches| - 1], remaining, failed)
    && table == PartlyRefreshed(u, prior, batches[|batches| - 1], remaining)
  }

  /** A stopped run does not succeed, and keeps every object's id. */
  lemma RunStoppedFails(u: Updater, rows: map<string, Row>, batches: seq<Batch>, remaining: set<string>, failed: string,
                        table: map<string, Row>)
    requires RunStopped(u, rows, batches, remaining, failed, table)
    ensures !RunSucceeds(u, rows, batches)
    ensures table.Keys == rows.Keys
  {
    var prior := RefreshAll(u, rows, batches[..|batches| - 1]);
    StoppedAtFails(u, prior, batches[|batches| - 1], remaining, failed);
  }
}
