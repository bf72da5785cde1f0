/** `BynderSyncedDocument`: a Wagtail document whose file is a copy of the
    asset's original. */
module Documents {
  import opened Wrappers
  import opened AssetData
  import opened AssetCommon
  import Paths
  import Download

  /** The document's state: the shared fields, its stored file (`None`
      when the FileField is empty) and the `_file_changed` flag `save()`
      reads. */
  datatype DocumentState = DocumentState(common: Common, file: Option<UploadedFile>, fileChanged: bool)

  /** `extract_file_source`: documents are copied from the 'original' URL,
      which Bynder leaves out for private assets. */
  function ExtractDocumentSource(data: AssetRecord): (r: Result<string, Error>)
    ensures r.Success? <==> data.original.Some?
    ensures r.Success? ==> r.value == data.original.value
    ensures r.Failure? ==> r.error == MissingOriginal(data.id)
  {
    match data.original
    case Some(url) => Success(url)
    case None => Failure(MissingOriginal(data.id))
  }

  /** `asset_file_has_changed` for documents. */
  function DocumentFileHasChanged(s: DocumentState, data: AssetRecord): (r: Result<bool, Error>)
    ensures r.Failure? <==> data.original.None?
    ensures r.Failure? ==> r.error == MissingOriginal(data.id)
    ensures r.Success? ==>
      (!r.value <==> s.common.sourceFilename == Paths.FilenameFromUrl(data.original.value)
                     && s.common.originalFilesize == Some(data.fileSize))
  {
    var src :- ExtractDocumentSource(data);
    Success(BaseFileChanged(s.common, src, data.fileSize))
  }

  /** `update_file` for documents: the download is used as is. On an error
      nothing has been assigned yet. */
  function DocumentUpdateFile(s: DocumentState, data: AssetRecord, env: Env): (step: Step<DocumentState>)
    ensures step.outcome.Pass? ==>
      data.original.Some? && step.state.common == RecordFingerprint(s.common, data.original.value, data.fileSize)
  {
    match ExtractDocumentSource(data)
    case Failure(e) => Step(s, Fail(e))
    case Success(src) =>
      match Download.DocumentDownload(src, env)
      case Failure(e) => Step(s, Fail(e))
      case Success(file) =>
        Step(DocumentState(RecordFingerprint(s.common, src, data.fileSize), Some(file), true), Pass)
  }

  /** The condition under which `update_from_asset_data` calls
      `update_file`: forced, no file yet, or the file has changed. */
  predicate DocumentDownloadDue(s: DocumentState, data: AssetRecord, force: bool) {
    force || s.file.None? || DocumentFileHasChanged(s, data) == Success(true)
  }

  /** `update_from_asset_data` for documents: mirror the record, then
      download when forced, when there is no file yet, or when the file has
      changed. */
  function DocumentApply(s: DocumentState, data: AssetRecord, env: Env, force: bool): (step: Step<DocumentState>)
    ensures step.state.common.bynderId == s.common.bynderId
    ensures step.state.common.lastModified == Some(data.dateModified)
  {
    var m := s.(common := MirrorRecord(s.common, data, env.collection));
    if force || m.file.None? then DocumentUpdateFile(m, data, env)
    else
      match DocumentFileHasChanged(m, data)
      case Failure(e) => Step(m, Fail(e))
      case Success(changed) => if changed then DocumentUpdateFile(m, data, env) else Step(m, Pass)
  }

  /** After a successful `update_file` the file no longer counts as
      changed, and the stored file is the download of the original. */
  lemma DocumentUpdateFileSettlesFile(s: DocumentState, data: AssetRecord, env: Env)
    requires DocumentUpdateFile(s, data, env).outcome.Pass?
    ensures var t := DocumentUpdateFile(s, data, env).state;
      && data.original.Some?
      && t.file == Some(Download.DocumentDownload(data.original.value, env).value)
      && t.fileChanged
      && DocumentFileHasChanged(t, data) == Success(false)
  {
  }

  /** A failed `update_file` leaves the document as it was. */
  lemma DocumentUpdateFileFailureKeepsState(s: DocumentState, data: AssetRecord, env: Env)
    requires DocumentUpdateFile(s, data, env).outcome.Fail?
    ensures DocumentUpdateFile(s, data, env).state == s
    ensures var e := DocumentUpdateFile(s, data, env).outcome.error;
      e == MissingOriginal(data.id) || e.FileTooLarge?
  {
  }

  /** `update_file` runs exactly when forced, when there is no file, or
      when the file has changed (judged before the record is mirrored,
      which leaves the fingerprint alone); otherwise the update only
      mirrors the record. */
  lemma DocumentApplyDownloadsWhen(s: DocumentState, data: AssetRecord, env: Env, force: bool)
    ensures var m := s.(common := MirrorRecord(s.common, data, env.collection));
      && (DocumentDownloadDue(s, data, force) ==> DocumentApply(s, data, env, force) == DocumentUpdateFile(m, data, env))
      && (!DocumentDownloadDue(s, data, force) ==> DocumentApply(s, data, env, force).state == m)
  {
    if data.original.Some? {
      MirrorKeepsFingerprint(s.common, data, env.collection, data.original.value, data.fileSize);
    }
  }

  /** A successful update leaves the document up to date, holding a file
      that matches the record; the file is the fresh download exactly when
      `update_file` was due, and the old file otherwise. */
  lemma DocumentApplyOutcome(s: DocumentState, data: AssetRecord, env: Env, force: bool)
    requires DocumentApply(s, data, env, force).outcome.Pass?
    ensures var t := DocumentApply(s, data, env, force).state;
      && t.common.lastModified == Some(data.dateModified)
      && IsUpToDate(t.common.lastModified, data)
      && t.common.bynderId == s.common.bynderId
      && t.file.Some?
      && DocumentFileHasChanged(t, data) == Success(false)
      && (DocumentDownloadDue(s, data, force) ==>
            t.fileChanged && t.file == Some(Download.DocumentDownload(data.original.value, env).value))
      && (!DocumentDownloadDue(s, data, force) ==> t == s.(common := MirrorRecord(s.common, data, env.collection)))
  {
    var m := s.(common := MirrorRecord(s.common, data, env.collection));
    MirrorKeepsFingerprint(s.common, data, env.collection, data.original.value, data.fileSize);
    DocumentApplyDownloadsWhen(s, data, env, force);
    if DocumentDownloadDue(s, data, force) {
      DocumentUpdateFileSettlesFile(m, data, env);
    }
  }

  /** An update that raises has still mirrored the record's fields onto the
      (unsaved) object, but kept its file. */
  lemma DocumentApplyFailureKeepsFile(s: DocumentState, data: AssetRecord, env: Env, force: bool)
    requires DocumentApply(s, data, env, force).outcome.Fail?
    ensures DocumentApply(s, data, env, force).state ==
      s.(common := MirrorRecord(s.common, data, env.collection))
  {
    var m := s.(common := MirrorRecord(s.common, data, env.collection));
    if force || m.file.None? || DocumentFileHasChanged(m, data) == Success(true) {
      DocumentUpdateFileFailureKeepsState(m, data, env);
    }
  }

  /** Applying the same record again, unforced, downloads nothing and
      changes nothing. */
  lemma DocumentApplySettles(s: DocumentState, data: AssetRecord, env: Env, force: bool)
    requires DocumentApply(s, data, env, force).outcome.Pass?
    ensures var t := DocumentApply(s, data, env, force).state;
      DocumentApply(t, data, env, false) == Step(t, Pass)
  {
    var t := DocumentApply(s, data, env, force).state;
    DocumentApplyOutcome(s, data, env, force);
    MirrorIdempotent(s.common, data, env.collection);
    MirrorKeepsFingerprint(t.common, data, env.collection, data.original.value, data.fileSize);
    assert t.common == MirrorRecord(t.common, data, env.collection) by {
      DocumentApplyMirrors(s, data, env, force);
    }
  }

  /** Whatever happens, the object ends up carrying the record's mirrored
      fields. */
  lemma DocumentApplyMirrors(s: DocumentState, data: AssetRecord, env: Env, force: bool)
    ensures var t := DocumentApply(s, data, env, force).state;
      t.common == MirrorRecord(t.common, data, env.collection)
  {
    MirrorIdempotent(s.common, data, env.collection);
    if data.original.Some? {
      MirrorAfterFingerprint(s.common, data, env.collection, data.original.value, data.fileSize);
    }
  }

  /** A document model instance. */
  class SyncedDocument {
    var common: Common
    var file: Option<UploadedFile>
    var fileChanged: bool

    function State(): DocumentState
      reads this
    {
      DocumentState(common, file, fileChanged)
    }

    constructor(s: DocumentState)
      ensures State() == s
    {
      common := s.common;
      file := s.file;
      fileChanged := s.fileChanged;
    }

    /** `asset_file_has_changed`. */
    function AssetFileHasChanged(data: AssetRecord): (r: Result<bool, Error>)
      reads this
      ensures r.Failure? <==> data.original.None?
      ensures r.Success? ==> (r.value <==> BaseFileChanged(common, data.original.value, data.fileSize))
    {
      DocumentFileHasChanged(State(), data)
    }

    /** `update_file`. */
    method UpdateFile(data: AssetRecord, env: Env) returns (outcome: Outcome<Error>)
      modifies this
      ensures Step(State(), outcome) == DocumentUpdateFile(old(State()), data, env)
    {
      var src := ExtractDocumentSource(data);
      if src.Failure? {
        return Fail(src.error);
      }
      var downloaded := Download.DownloadDocument(src.value, env);
      if downloaded.Failure? {
        return Fail(downloaded.error);
      }
      file := Some(downloaded.value);
      fileChanged := true;
      common := RecordFingerprint(common, src.value, data.fileSize);
      return Pass;
    }

    /** `update_from_asset_data(asset_data, force_download=force)`. */
    method UpdateFromAssetData(data: AssetRecord, env: Env, force: bool) returns (outcome: Outcome<Error>)
      modifies this
      ensures Step(State(), outcome) == DocumentApply(old(State()), data, env, force)
    {
      common := MirrorRecord(common, data, env.collection);
      if force || file.None? {
        outcome := UpdateFile(data, env);
        return;
      }
      var changed := AssetFileHasChanged(data);
      if changed.Failure? {
        return Fail(changed.error);
      }
      if changed.value {
        outcome := UpdateFile(data, env);
      } else {
        outcome := Pass;
      }
    }
  }
}
