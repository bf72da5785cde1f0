/** A stored asset of any of the three kinds, and the
    `update_from_asset_data` call dispatched on its kind. */
module Rows {
  import opened Wrappers
  import opened AssetData
  import opened AssetCommon
  import Images
  import Documents
  import Videos

  datatype Row =
    | ImageRow(image: Images.ImageState)
    | DocumentRow(document: Documents.DocumentState)
    | VideoRow(video: Videos.VideoState)

  function RowCommon(r: Row): Common {
    match r
    case ImageRow(s) => s.common
    case DocumentRow(s) => s.common
    case VideoRow(s) => s.common
  }

  predicate SameKind(a: Row, b: Row) {
    (a.ImageRow? && b.ImageRow?) || (a.DocumentRow? && b.DocumentRow?) || (a.VideoRow? && b.VideoRow?)
  }

  /** `obj.update_from_asset_data(data, force_download=force)`; the video
      model accepts and ignores `force_download`. */
  function ApplyRecord(r: Row, data: AssetRecord, env: Env, force: bool): (step: Step<Row>)
    ensures SameKind(step.state, r)
  {
    match r
    case ImageRow(s) =>
      var t := Images.ImageApply(s, data, env, force);
      Step(ImageRow(t.state), t.outcome)
    case DocumentRow(s) =>
      var t := Documents.DocumentApply(s, data, env, force);
      Step(DocumentRow(t.state), t.outcome)
    case VideoRow(s) =>
      var t := Videos.VideoApply(s, data, env);
      Step(VideoRow(t.state), t.outcome)
  }

  /** A successful update leaves any kind of object up to date with the
      record, still bound to the same Bynder asset. */
  lemma ApplyRecordOutcome(r: Row, data: AssetRecord, env: Env, force: bool)
    requires ApplyRecord(r, data, env, force).outcome.Pass?
    ensures var c := RowCommon(ApplyRecord(r, data, env, force).state);
      && IsUpToDate(c.lastModified, data)
      && c.lastModified == Some(data.dateModified)
      && c.bynderId == RowCommon(r).bynderId
  {
    match r
    case ImageRow(s) => Images.ImageApplyOutcome(s, data, env, force);
    case DocumentRow(s) => Documents.DocumentApplyOutcome(s, data, env, force);
    case VideoRow(s) => Videos.VideoApplyOutcome(s, data, env);
  }

  /** A failed update keeps the object bound to the same Bynder asset. */
  lemma ApplyRecordKeepsId(r: Row, data: AssetRecord, env: Env, force: bool)
    ensures RowCommon(ApplyRecord(r, data, env, force).state).bynderId == RowCommon(r).bynderId
  {
    match r
    case ImageRow(s) =>
    case DocumentRow(s) =>
    case VideoRow(s) =>
  }

  /** A second unforced update with the same record succeeds without
      downloading, and changes nothing but an image's focal change flag. */
  lemma ApplyRecordSettles(r: Row, data: AssetRecord, env: Env, force: bool)
    requires ApplyRecord(r, data, env, force).outcome.Pass?
    ensures var t := ApplyRecord(r, data, env, force).state;
      var again := ApplyRecord(t, data, env, false);
      && again.outcome.Pass?
      && RowCommon(again.state) == RowCommon(t)
      && (t.ImageRow? ==> again.state == ImageRow(t.image.(focalPointChanged := false)))
      && (!t.ImageRow? ==> again.state == t)
  {
    match r
    case ImageRow(s) => Images.ImageApplySettles(s, data, env, force);
    case DocumentRow(s) => Documents.DocumentApplySettles(s, data, env, force);
    case VideoRow(s) => Videos.VideoApplySettles(s, data, env);
  }

  /** Load the stored object as a model instance, call its
      `update_from_asset_data` and read back its fields. */
  method UpdateInstance(r: Row, data: AssetRecord, env: Env, force: bool) returns (step: Step<Row>)
    ensures step == ApplyRecord(r, data, env, force)
  {
    match r
    case ImageRow(s) =>
      var obj := new Images.SyncedImage(s);
      var outcome := obj.UpdateFromAssetData(data, env, force);
      step := Step(ImageRow(obj.State()), outcome);
    case DocumentRow(s) =>
      var obj := new Documents.SyncedDocument(s);
      var outcome := obj.UpdateFromAssetData(data, env, force);
      step := Step(DocumentRow(obj.State()), outcome);
    case VideoRow(s) =>
      var obj := new Videos.SyncedVideo(s);
      var outcome := obj.UpdateFromAssetData(data, env);
      step := Step(VideoRow(obj.State()), outcome);
  }
}
