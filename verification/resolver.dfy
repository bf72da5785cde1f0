/** `BynderAssetCopyMixin` and `RedirectToBynderMixin`: the chooser views'
    find-or-create of a local copy of one asset, and the redirect of the
    edit views to Bynder. */
module Resolver {
  import opened Wrappers
  import opened AssetData
  import opened AssetCommon
  import opened Rows
  import opened Store
  import Images
  import Documents
  import Videos

  /** The model a view is bound to. */
  datatype Kind = ImageKind | DocumentKind | VideoKind

  /** `self.model(bynder_id=asset_id)`: a new object with its fields at
      their defaults. */
  function NewObject(kind: Kind, assetId: string): (r: Row)
    ensures RowCommon(r).bynderId == Some(assetId)
    ensures RowCommon(r).lastModified.None? && RowFileName(r).None?
    ensures kind == VideoKind <==> r.VideoRow?
  {
    var c := Common(Some(assetId), "", 0, None, "", None, "", "", false, false, false);
    match kind
    case ImageKind => ImageRow(Images.ImageState(c, None, 0, 0, None, None, None, false, false))
    case DocumentKind => DocumentRow(Documents.DocumentState(c, None, false))
    case VideoKind => VideoRow(Videos.VideoState(c, None, None, "", Some(""), ""))
  }

  /** Lines 34-40 of `create_object` as written: compare `obj.file.path`
      with `existing.file.path`, delete the new file when they differ,
      swallow the ValueError of an object without a file, and return the
      existing object. `Success(Some(name))` deletes `name`. Reading
      `.file` of a model that has no file field raises AttributeError,
      which is not caught. */
  function CleanupAsWritten(obj: Row, existing: Row): (r: Result<Option<string>, Error>)
    ensures r.Failure? <==> obj.VideoRow? || (RowFileName(obj).Some? && existing.VideoRow?)
    ensures r.Failure? ==> r.error == NoFileAttribute
    ensures r.Success? && r.value.Some? ==> r.value == RowFileName(obj) && RowFileName(obj) != RowFileName(existing)
  {
    if obj.VideoRow? then Failure(NoFileAttribute)
    else if RowFileName(obj).None? then Success(None)
    else if existing.VideoRow? then Failure(NoFileAttribute)
    else if RowFileName(existing).None? then Success(None)
    else if RowFileName(obj) != RowFileName(existing) then Success(RowFileName(obj))
    else Success(None)
  }

  /** The recovered-race branch of `create_object` as written. */
  function RecoverAsWritten(obj: Row, existing: Row): (r: Result<Row, Error>)
    ensures r.Success? ==> r.value == existing
    ensures r.Failure? <==> obj.VideoRow? || (RowFileName(obj).Some? && existing.VideoRow?)
  {
    match CleanupAsWritten(obj, existing)
    case Failure(e) => Failure(e)
    case Success(_) => Success(existing)
  }

  /** As written, the recovered race never returns the existing video: the
      AttributeError from `obj.file` escapes. */
  lemma VideoRaceRaisesAsWritten(v: Videos.VideoState, existing: Row)
    ensures RecoverAsWritten(VideoRow(v), existing) == Failure(NoFileAttribute)
  {
  }

  /** The file the recovered race should discard: the new object's, when
      both objects have a file and they are different files. A model
      without a file field leaves nothing to discard. */
  function OrphanedFile(obj: Row, existing: Row): (r: Option<string>)
    ensures r.Some? <==> RowFileName(obj).Some? && RowFileName(existing).Some? && RowFileName(obj) != RowFileName(existing)
    ensures r.Some? ==> r == RowFileName(obj)
  {
    if RowFileName(obj).Some? && RowFileName(existing).Some? && RowFileName(obj) != RowFileName(existing)
    then RowFileName(obj) else None
  }

  /** For the models that have a file the corrected cleanup does exactly
      what the code as written does. */
  lemma OrphanedFileAgreesOnFileModels(obj: Row, existing: Row)
    requires !obj.VideoRow? && !existing.VideoRow?
    ensures CleanupAsWritten(obj, existing) == Success(OrphanedFile(obj, existing))
    ensures RecoverAsWritten(obj, existing) == Success(existing)
  {
  }

  /** The table and the storage as the competing request leaves them: its
      object `concurrent`, if it got in first, with its file. */
  function RowsAfterRace(rows: map<string, Row>, assetId: string, concurrent: Option<Row>): map<string, Row> {
    if concurrent.Some? && assetId !in rows then rows[assetId := concurrent.value] else rows
  }

  function MediaAfterRace(rows: map<string, Row>, media: set<string>, assetId: string, concurrent: Option<Row>): set<string> {
    if concurrent.Some? && assetId !in rows then media + RowFiles(concurrent.value) else media
  }

  /** A competing request that creates the same asset's object in between
      this request's build and save. */
  method CompetingCreate(db: Database, assetId: string, concurrent: Option<Row>)
    requires db.Valid()
    requires concurrent.Some? ==> RowCommon(concurrent.value).bynderId == Some(assetId)
    modifies db
    ensures db.Valid()
    ensures db.rows == RowsAfterRace(old(db.rows), assetId, concurrent)
    ensures db.media == MediaAfterRace(old(db.rows), old(db.media), assetId, concurrent)
  {
    if concurrent.Some? && assetId !in db.rows {
      var c := concurrent.value;
      var ignored, stored := db.Insert(c, if RowFileName(c).Some? then RowFileName(c).value else assetId, false);
    }
  }

  /** The save in `create_object`: insert the built object `obj`; when the
      save hits the unique `bynder_id` (another request created the object
      first), delete the file this save left behind and return the stored
      object; any other integrity error propagates. */
  method SaveNewObject(db: Database, assetId: string, obj: Row,
                       concurrent: Option<Row>, otherConflict: bool, storedName: string)
    returns (r: Result<Row, Error>)
    requires db.Valid() && RowCommon(obj).bynderId == Some(assetId)
    requires concurrent.Some? ==> RowCommon(concurrent.value).bynderId == Some(assetId)
    requires storedName !in db.media
    requires concurrent.Some? ==> storedName !in RowFiles(concurrent.value)
    modifies db
    ensures db.Valid()
    ensures var saved := Stored(obj, storedName);
      var rowsBefore := RowsAfterRace(old(db.rows), assetId, concurrent);
      var mediaBefore := MediaAfterRace(old(db.rows), old(db.media), assetId, concurrent);
      assetId !in rowsBefore && !otherConflict ==>
        r == Success(saved) && db.rows == rowsBefore[assetId := saved] && db.media == mediaBefore + RowFiles(saved)
    ensures var saved := Stored(obj, storedName);
      var rowsBefore := RowsAfterRace(old(db.rows), assetId, concurrent);
      var mediaBefore := MediaAfterRace(old(db.rows), old(db.media), assetId, concurrent);
      assetId in rowsBefore ==>
        && r == Success(rowsBefore[assetId])
        && db.rows == rowsBefore
        && db.media == mediaBefore + (if RowFileName(rowsBefore[assetId]).None? then RowFiles(saved) else {})
    ensures var saved := Stored(obj, storedName);
      var rowsBefore := RowsAfterRace(old(db.rows), assetId, concurrent);
      var mediaBefore := MediaAfterRace(old(db.rows), old(db.media), assetId, concurrent);
      assetId !in rowsBefore && otherConflict ==>
        r == Failure(IntegrityError) && db.rows == rowsBefore && db.media == mediaBefore + RowFiles(saved)
  {
    CompetingCreate(db, assetId, concurrent);
    ghost var rowsBefore := db.rows;
    ghost var mediaBefore := db.media;
    assert storedName !in mediaBefore;
    var outcome, saved := db.Insert(obj, storedName, otherConflict);
    if outcome.Pass? {
      return Success(saved);
    }
    if assetId !in db.rows {
      return Failure(IntegrityError);
    }
    var existing := db.rows[assetId];
    assert RowFiles(existing) <= mediaBefore;
    var orphan := OrphanedFile(saved, existing);
    if orphan.Some? {
      assert forall id :: id in db.rows ==> RowFileName(db.rows[id]) != Some(storedName) by {
        forall id | id in db.rows
          ensures RowFileName(db.rows[id]) != Some(storedName)
        {
          assert RowFiles(db.rows[id]) <= mediaBefore;
        }
      }
      db.DeleteFile(orphan.value);
      assert mediaBefore + {storedName} - {storedName} == mediaBefore;
    }
    return Success(existing);
  }

  /** `create_object(asset_id)`, with the cleanup corrected by
      `OrphanedFile`. A competing request that stores `concurrent` between
      this one's build and save is modelled by `CompetingCreate`;
      `otherConflict` says whether another unique column clashes;
      `storedName` is the name storage gives the new file (a name not in
      use, as storage picks one). */
  method CreateObject(db: Database, kind: Kind, assetId: string, mediaInfo: string -> AssetRecord, env: Env,
                      concurrent: Option<Row>, otherConflict: bool, storedName: string)
    returns (r: Result<Row, Error>)
    requires db.Valid()
    requires concurrent.Some? ==> RowCommon(concurrent.value).bynderId == Some(assetId)
    requires storedName !in db.media
    requires concurrent.Some? ==> storedName !in RowFiles(concurrent.value)
    modifies db
    ensures db.Valid()
    ensures var built := ApplyRecord(NewObject(kind, assetId), mediaInfo(assetId), env, false);
      built.outcome.Fail? ==> r == Failure(built.outcome.error) && db.rows == old(db.rows) && db.media == old(db.media)
    ensures var built := ApplyRecord(NewObject(kind, assetId), mediaInfo(assetId), env, false);
      var saved := Stored(built.state, storedName);
      var rowsBefore := RowsAfterRace(old(db.rows), assetId, concurrent);
      var mediaBefore := MediaAfterRace(old(db.rows), old(db.media), assetId, concurrent);
      built.outcome.Pass? && assetId !in rowsBefore && !otherConflict ==>
        r == Success(saved) && db.rows == rowsBefore[assetId := saved] && db.media == mediaBefore + RowFiles(saved)
    ensures var built := ApplyRecord(NewObject(kind, assetId), mediaInfo(assetId), env, false);
      var saved := Stored(built.state, storedName);
      var rowsBefore := RowsAfterRace(old(db.rows), assetId, concurrent);
      var mediaBefore := MediaAfterRace(old(db.rows), old(db.media), assetId, concurrent);
      built.outcome.Pass? && assetId in rowsBefore ==>
        && r == Success(rowsBefore[assetId])
        && db.rows == rowsBefore
        && db.media == mediaBefore + (if RowFileName(rowsBefore[assetId]).None? then RowFiles(saved) else {})
    ensures var built := ApplyRecord(NewObject(kind, assetId), mediaInfo(assetId), env, false);
      var saved := Stored(built.state, storedName);
      var rowsBefore := RowsAfterRace(old(db.rows), assetId, concurrent);
      var mediaBefore := MediaAfterRace(old(db.rows), old(db.media), assetId, concurrent);
      built.outcome.Pass? && assetId !in rowsBefore && otherConflict ==>
        r == Failure(IntegrityError) && db.rows == rowsBefore && db.media == mediaBefore + RowFiles(saved)
  {
    var obj := NewObject(kind, assetId);
    var data := mediaInfo(assetId);
    var built := UpdateInstance(obj, data, env, false);
    if built.outcome.Fail? {
      return Failure(built.outcome.error);
    }
    ApplyRecordKeepsId(obj, data, env, false);
    r := SaveNewObject(db, assetId, built.state, concurrent, otherConflict, storedName);
  }

  /** `update_object(asset_id, obj)` on the stored object: fetch the
      record, and update and save only when the object is not up to date. */
  method UpdateObject(db: Database, assetId: string, mediaInfo: string -> AssetRecord, env: Env)
    returns (r: Result<Row, Error>)
    requires db.Valid() && assetId in db.rows
    modifies db
    ensures db.Valid()
    ensures var obj := old(db.rows)[assetId];
      var data := mediaInfo(assetId);
      var step := ApplyRecord(obj, data, env, false);
      && (IsUpToDate(RowCommon(obj).lastModified, data) ==>
            r == Success(obj) && db.rows == old(db.rows) && db.media == old(db.media))
      && (!IsUpToDate(RowCommon(obj).lastModified, data) && step.outcome.Fail? ==>
            r == Failure(step.outcome.error) && db.rows == old(db.rows) && db.media == old(db.media))
      && (!IsUpToDate(RowCommon(obj).lastModified, data) && step.outcome.Pass? ==>
            && r == Success(step.state)
            && db.rows == old(db.rows)[assetId := step.state]
            && db.media == old(db.media) + RowFiles(step.state)
            && IsUpToDate(RowCommon(step.state).lastModified, data))
  {
    var obj := db.rows[assetId];
    var data := mediaInfo(assetId);
    if IsUpToDate(RowCommon(obj).lastModified, data) {
      return Success(obj);
    }
    var step := UpdateInstance(obj, data, env, false);
    if step.outcome.Fail? {
      return Failure(step.outcome.error);
    }
    ApplyRecordOutcome(obj, data, env, false);
    db.SaveExisting(assetId, step.state);
    return Success(step.state);
  }

  /** The Bynder page an edit view of a synced asset redirects to: only
      objects with a non-empty `bynder_id` are redirected. */
  function RedirectTarget(domain: string, bynderId: Option<string>): (url: Option<string>)
    ensures url.Some? <==> bynderId.Some? && bynderId.value != ""
  {
    if bynderId.Some? && bynderId.value != "" then Some("https://" + domain + "/media/?mediaId=" + bynderId.value)
    else None
  }

  /** The redirect is an https URL on the configured domain whose
      `mediaId` parameter is the asset id, which can be read back from its
      end. */
  lemma RedirectCarriesAssetId(domain: string, id: string)
    requires id != ""
    ensures var url := RedirectTarget(domain, Some(id)).value;
      var prefix := "https://" + domain + "/media/?mediaId=";
      && url[..|prefix|] == prefix
      && url[|prefix|..] == id
      && url[..8] == "https://"
  {
  }
}
