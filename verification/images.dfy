/** `BynderSyncedImage`: a Wagtail image whose file is a converted copy of
    the asset's source derivative, with a focal area derived from the
    asset's focus point. */
module Images {
  import opened Wrappers
  import opened AssetData
  import opened AssetCommon
  import opened Focal
  import Dicts
  import Paths
  import Download

  /** The image's state. `width` and `height` are the stored file's pixel
      size (Wagtail's ImageField refreshes them whenever a file is
      assigned); `originalWidth` and `originalHeight` are the asset's. */
  datatype ImageState = ImageState(
    common: Common,
    file: Option<UploadedFile>,
    width: int,
    height: int,
    originalWidth: Option<int>,
    originalHeight: Option<int>,
    focal: Option<FocalArea>,
    fileChanged: bool,
    focalPointChanged: bool)

  /** `extract_file_source` for images: the thumbnail named by
      BYNDER_IMAGE_SOURCE_THUMBNAIL_NAME, because the 'original' is not
      always present. */
  function ExtractImageSource(data: AssetRecord, settings: Settings): (r: Result<string, Error>)
    ensures var key := ImageSourceThumbnailName(settings);
      && (r.Success? <==> key in Dicts.Keys(data.thumbnails))
      && (r.Success? ==> Dicts.Get(data.thumbnails, key) == Some(r.value))
      && (r.Failure? ==> r.error == MissingDerivative("thumbnails", key, "BYNDER_IMAGE_SOURCE_THUMBNAIL_NAME",
                                                      Some(data.id), Dicts.Keys(data.thumbnails)))
  {
    var key := ImageSourceThumbnailName(settings);
    match Dicts.Get(data.thumbnails, key)
    case Some(url) => Success(url)
    case None => Failure(MissingDerivative("thumbnails", key, "BYNDER_IMAGE_SOURCE_THUMBNAIL_NAME",
                                           Some(data.id), Dicts.Keys(data.thumbnails)))
  }

  /** `asset_file_has_changed` for images also compares the recorded
      original dimensions (a missing one reads as 0). */
  function ImageFileHasChanged(s: ImageState, data: AssetRecord, settings: Settings): (r: Result<bool, Error>)
    ensures r.Failure? <==> ImageSourceThumbnailName(settings) !in Dicts.Keys(data.thumbnails)
    ensures r.Success? && (s.originalHeight.GetOr(0) != data.height || s.originalWidth.GetOr(0) != data.width) ==> r.value
  {
    var src :- ExtractImageSource(data, settings);
    Success(BaseFileChanged(s.common, src, data.fileSize)
            || s.originalHeight.GetOr(0) != data.height
            || s.originalWidth.GetOr(0) != data.width)
  }

  /** `update_file` for images: the original dimensions are recorded
      first, so they stay even when the download then fails. */
  function ImageUpdateFile(s: ImageState, data: AssetRecord, env: Env): (step: Step<ImageState>)
    ensures step.state.common.bynderId == s.common.bynderId
  {
    var s1 := s.(originalWidth := Some(data.width), originalHeight := Some(data.height));
    match ExtractImageSource(data, env.settings)
    case Failure(e) => Step(s1, Fail(e))
    case Success(src) =>
      match Download.ImageDownload(src, env)
      case Failure(e) => Step(s1, Fail(e))
      case Success(downloaded) =>
        var converted := env.convertImage(downloaded);
        Step(s1.(common := RecordFingerprint(s1.common, src, data.fileSize),
                 file := Some(converted.file),
                 width := converted.width,
                 height := converted.height,
                 fileChanged := true),
             Pass)
  }

  /** The focal point step of `update_from_asset_data`: `_focal_point_changed`
      is reset, and when the record has a focus point the focal area is
      recomputed against the stored image; the flag is raised when the area
      differs from the one before (or there was none). */
  function ImageRefocus(s: ImageState, data: AssetRecord): (step: Step<ImageState>)
    ensures step.state == s.(focal := step.state.focal, focalPointChanged := step.state.focalPointChanged)
    ensures data.activeOriginalFocusPoint.None? ==> step == Step(s.(focalPointChanged := false), Pass)
    ensures data.activeOriginalFocusPoint.Some? ==>
      var p := data.activeOriginalFocusPoint.value;
      var r := ComputeFocalArea(p.x, p.y, data.height, data.width, s.width, s.height);
      && (r.Failure? ==> step == Step(s.(focalPointChanged := false), Fail(r.error)))
      && (r.Success? ==> && step.outcome == Pass
                         && step.state.focal == Some(r.value)
                         && (step.state.focalPointChanged <==> s.focal.None? || step.state.focal != s.focal))
  {
    var current := s.focal;
    var s1 := s.(focalPointChanged := false);
    match data.activeOriginalFocusPoint
    case None => Step(s1, Pass)
    case Some(p) =>
      match ComputeFocalArea(p.x, p.y, data.height, data.width, s.width, s.height)
      case Failure(e) => Step(s1, Fail(e))
      case Success(area) =>
        Step(s1.(focal := Some(area), focalPointChanged := current.None? || Some(area) != current), Pass)
  }

  /** The condition under which `update_from_asset_data` calls
      `update_file`: forced, no file yet, or the file has changed. */
  predicate ImageDownloadDue(s: ImageState, data: AssetRecord, settings: Settings, force: bool) {
    force || s.file.None? || ImageFileHasChanged(s, data, settings) == Success(true)
  }

  /** The file-bearing part of `update_from_asset_data` (the
      `BynderAssetWithFileMixin` override) on an already mirrored image:
      download when forced, when there is no file yet, or when the file has
      changed. */
  function ImageSyncFile(m: ImageState, data: AssetRecord, env: Env, force: bool): (step: Step<ImageState>)
    ensures step.state.common.bynderId == m.common.bynderId
    ensures ImageDownloadDue(m, data, env.settings, force) ==> step == ImageUpdateFile(m, data, env)
    ensures !ImageDownloadDue(m, data, env.settings, force) ==> step.state == m
  {
    if force || m.file.None? then ImageUpdateFile(m, data, env)
    else
      match ImageFileHasChanged(m, data, env.settings)
      case Failure(e) => Step(m, Fail(e))
      case Success(changed) => if changed then ImageUpdateFile(m, data, env) else Step(m, Pass)
  }

  /** `update_from_asset_data` for images: mirror the record, sync the
      file, then the focal area. */
  function ImageApply(s: ImageState, data: AssetRecord, env: Env, force: bool): (step: Step<ImageState>)
    ensures step.state.common.bynderId == s.common.bynderId
  {
    var filed := ImageSyncFile(s.(common := MirrorRecord(s.common, data, env.collection)), data, env, force);
    if filed.outcome.Fail? then filed else ImageRefocus(filed.state, data)
  }

  /** After a successful `update_file` the file no longer counts as
      changed: the stored file is the conversion of the downloaded source
      and the stored size is the converted one. */
  lemma ImageUpdateFileSettlesFile(s: ImageState, data: AssetRecord, env: Env)
    requires ImageUpdateFile(s, data, env).outcome.Pass?
    ensures var t := ImageUpdateFile(s, data, env).state;
      var src := Dicts.Get(data.thumbnails, ImageSourceThumbnailName(env.settings));
      && src.Some?
      && var converted := env.convertImage(Download.ImageDownload(src.value, env).value);
      && t.common == RecordFingerprint(s.common, src.value, data.fileSize)
      && t.file == Some(converted.file)
      && t.width == converted.width && t.height == converted.height
      && t.originalWidth == Some(data.width) && t.originalHeight == Some(data.height)
      && t.focal == s.focal
      && ImageFileHasChanged(t, data, env.settings) == Success(false)
  {
  }

  /** A failed `update_file` has recorded the original dimensions and
      nothing else. */
  lemma ImageUpdateFileFailure(s: ImageState, data: AssetRecord, env: Env)
    requires ImageUpdateFile(s, data, env).outcome.Fail?
    ensures ImageUpdateFile(s, data, env).state ==
      s.(originalWidth := Some(data.width), originalHeight := Some(data.height))
    ensures var e := ImageUpdateFile(s, data, env).outcome.error;
      e.MissingDerivative? || e.FileTooLarge?
  {
  }

  /** Refocusing with the same record and stored size gives the same area,
      so a second pass reports no focal change. */
  lemma ImageRefocusSettles(s: ImageState, data: AssetRecord)
    requires ImageRefocus(s, data).outcome.Pass?
    ensures var t := ImageRefocus(s, data).state;
      ImageRefocus(t, data) == Step(t.(focalPointChanged := false), Pass)
  {
  }

  /** Refocusing fails exactly when the focus point lies outside the
      original, or the stored and original heights differ and one is 0. */
  lemma ImageRefocusFailure(s: ImageState, data: AssetRecord)
    ensures ImageRefocus(s, data).outcome.Fail? <==>
      data.activeOriginalFocusPoint.Some? &&
      var p := data.activeOriginalFocusPoint.value;
      (OutOfBounds(p.x, p.y, data.height, data.width) || RescaleDividesByZero(data.height, s.height))
    ensures ImageRefocus(s, data).outcome.Fail? ==> ImageRefocus(s, data).state.focal == s.focal
  {
    match data.activeOriginalFocusPoint
    case None =>
    case Some(p) =>
      var r := ComputeFocalArea(p.x, p.y, data.height, data.width, s.width, s.height);
      assert r.Failure? ==> r.error == FocusPointOutOfBounds || r.error == DivisionByZero;
  }

  /** The image's file counts as changed exactly when the base test holds
      for the source derivative, or a recorded original dimension (0 when
      none is recorded) differs from the record's; in particular when a
      recorded dimension differs from a non-zero one in the record. */
  lemma ImageFileHasChangedCases(s: ImageState, data: AssetRecord, settings: Settings)
    ensures var r := ImageFileHasChanged(s, data, settings);
      && (r.Failure? <==> ImageSourceThumbnailName(settings) !in Dicts.Keys(data.thumbnails))
      && (r.Success? ==>
            (r.value <==> || BaseFileChanged(s.common, Dicts.Get(data.thumbnails, ImageSourceThumbnailName(settings)).value, data.fileSize)
                          || s.originalHeight.GetOr(0) != data.height
                          || s.originalWidth.GetOr(0) != data.width))
      && (r.Success? && data.width != 0 && s.originalWidth != Some(data.width) ==> r.value)
      && (r.Success? && data.height != 0 && s.originalHeight != Some(data.height) ==> r.value)
      && (r.Success? && !r.value ==>
            !BaseFileChanged(s.common, Dicts.Get(data.thumbnails, ImageSourceThumbnailName(settings)).value, data.fileSize))
  {
    var r := ImageFileHasChanged(s, data, settings);
    if r.Success? {
      assert s.originalWidth.None? ==> s.originalWidth.GetOr(0) == 0;
      assert s.originalHeight.None? ==> s.originalHeight.GetOr(0) == 0;
    }
  }

  /** A successful file sync leaves a file that matches the record, the
      mirrored fields and the focal area untouched. */
  lemma ImageSyncFileOutcome(m: ImageState, data: AssetRecord, env: Env, force: bool)
    requires ImageSyncFile(m, data, env, force).outcome.Pass?
    ensures var t := ImageSyncFile(m, data, env, force).state;
      && t.common == RecordFingerprint(m.common, Dicts.Get(data.thumbnails, ImageSourceThumbnailName(env.settings)).value, data.fileSize)
      && t.file.Some?
      && t.focal == m.focal
      && ImageFileHasChanged(t, data, env.settings) == Success(false)
      && (ImageDownloadDue(m, data, env.settings, force) ==>
            var converted := env.convertImage(Download.ImageDownload(Dicts.Get(data.thumbnails, ImageSourceThumbnailName(env.settings)).value, env).value);
            && t.fileChanged && t.file == Some(converted.file)
            && t.width == converted.width && t.height == converted.height)
      && (!ImageDownloadDue(m, data, env.settings, force) ==> t == m)
  {
    var src := Dicts.Get(data.thumbnails, ImageSourceThumbnailName(env.settings));
    if ImageDownloadDue(m, data, env.settings, force) {
      assert ImageSyncFile(m, data, env, force) == ImageUpdateFile(m, data, env);
      ImageUpdateFileSettlesFile(m, data, env);
    } else {
      assert ImageFileHasChanged(m, data, env.settings) == Success(false);
      assert ImageSyncFile(m, data, env, force) == Step(m, Pass);
      assert !BaseFileChanged(m.common, src.value, data.fileSize);
      FingerprintOfUnchanged(m.common, src.value, data.fileSize);
    }
  }

  /** A successful update leaves the image up to date, holding a file that
      matches the record, and with a focal area whenever the record has a
      focus point. */
  lemma ImageApplyOutcome(s: ImageState, data: AssetRecord, env: Env, force: bool)
    requires ImageApply(s, data, env, force).outcome.Pass?
    ensures var t := ImageApply(s, data, env, force).state;
      && t.common.lastModified == Some(data.dateModified)
      && IsUpToDate(t.common.lastModified, data)
      && t.common.bynderId == s.common.bynderId
      && t.file.Some?
      && ImageFileHasChanged(t, data, env.settings) == Success(false)
      && (data.activeOriginalFocusPoint.Some? ==>
            var p := data.activeOriginalFocusPoint.value;
            && t.focal.Some?
            && ComputeFocalArea(p.x, p.y, data.height, data.width, t.width, t.height) == Success(t.focal.value)
            && (t.focalPointChanged <==> s.focal.None? || t.focal != s.focal))
      && (data.activeOriginalFocusPoint.None? ==> t.focal == s.focal && !t.focalPointChanged)
      && (ImageDownloadDue(s, data, env.settings, force) ==>
            var converted := env.convertImage(Download.ImageDownload(Dicts.Get(data.thumbnails, ImageSourceThumbnailName(env.settings)).value, env).value);
            && t.fileChanged && t.file == Some(converted.file)
            && t.width == converted.width && t.height == converted.height)
      && (!ImageDownloadDue(s, data, env.settings, force) ==>
            && t.file == s.file && t.fileChanged == s.fileChanged
            && t.width == s.width && t.height == s.height
            && t.originalWidth == s.originalWidth && t.originalHeight == s.originalHeight)
  {
    var m := s.(common := MirrorRecord(s.common, data, env.collection));
    ImageSyncFileOutcome(m, data, env, force);
    var key := ImageSourceThumbnailName(env.settings);
    if key in Dicts.Keys(data.thumbnails) {
      MirrorKeepsFingerprint(s.common, data, env.collection, Dicts.Get(data.thumbnails, key).value, data.fileSize);
    }
    assert ImageFileHasChanged(m, data, env.settings) == ImageFileHasChanged(s, data, env.settings);
  }

  /** An image that holds a file matching the record and already mirrors
      it goes straight to the focal step on an unforced update. */
  lemma ImageApplyWhenSettled(t: ImageState, data: AssetRecord, env: Env)
    requires t.file.Some? && ImageFileHasChanged(t, data, env.settings) == Success(false)
    requires MirrorRecord(t.common, data, env.collection) == t.common
    ensures ImageApply(t, data, env, false) == ImageRefocus(t, data)
  {
    assert t.(common := MirrorRecord(t.common, data, env.collection)) == t;
  }

  /** Applying the same record again, unforced, downloads nothing and
      leaves everything but the focal change flag as it was. */
  lemma ImageApplySettles(s: ImageState, data: AssetRecord, env: Env, force: bool)
    requires ImageApply(s, data, env, force).outcome.Pass?
    ensures var t := ImageApply(s, data, env, force).state;
      ImageApply(t, data, env, false) == Step(t.(focalPointChanged := false), Pass)
  {
    var m := s.(common := MirrorRecord(s.common, data, env.collection));
    var filed := ImageSyncFile(m, data, env, force);
    var t := ImageRefocus(filed.state, data).state;
    ImageSyncFileOutcome(m, data, env, force);
    var src := Dicts.Get(data.thumbnails, ImageSourceThumbnailName(env.settings)).value;
    MirrorAfterFingerprint(s.common, data, env.collection, src, data.fileSize);
    assert ImageFileHasChanged(t, data, env.settings) == ImageFileHasChanged(filed.state, data, env.settings);
    ImageApplyWhenSettled(t, data, env);
    ImageRefocusSettles(filed.state, data);
  }

  /** An image model instance. */
  class SyncedImage {
    var common: Common
    var file: Option<UploadedFile>
    var width: int
    var height: int
    var originalWidth: Option<int>
    var originalHeight: Option<int>
    var focal: Option<FocalArea>
    var fileChanged: bool
    var focalPointChanged: bool

    function State(): ImageState
      reads this
    {
      ImageState(common, file, width, height, originalWidth, originalHeight, focal, fileChanged, focalPointChanged)
    }

    constructor(s: ImageState)
      ensures State() == s
    {
      common := s.common;
      file := s.file;
      width := s.width;
      height := s.height;
      originalWidth := s.originalWidth;
      originalHeight := s.originalHeight;
      focal := s.focal;
      fileChanged := s.fileChanged;
      focalPointChanged := s.focalPointChanged;
    }

    /** `asset_file_has_changed`. */
    function AssetFileHasChanged(data: AssetRecord, settings: Settings): (r: Result<bool, Error>)
      reads this
      ensures r.Failure? <==> ImageSourceThumbnailName(settings) !in Dicts.Keys(data.thumbnails)
      ensures r.Success? ==>
        (r.value <==> || BaseFileChanged(common, Dicts.Get(data.thumbnails, ImageSourceThumbnailName(settings)).value, data.fileSize)
                      || originalHeight.GetOr(0) != data.height
                      || originalWidth.GetOr(0) != data.width)
      ensures r.Success? && data.width != 0 && originalWidth != Some(data.width) ==> r.value
      ensures r.Success? && data.height != 0 && originalHeight != Some(data.height) ==> r.value
      ensures r.Success? && !r.value ==>
        !BaseFileChanged(common, Dicts.Get(data.thumbnails, ImageSourceThumbnailName(settings)).value, data.fileSize)
    {
      var s := State();
      ImageFileHasChangedCases(s, data, settings);
      ImageFileHasChanged(s, data, settings)
    }

    /** `set_focal_area_from_focus_point(x, y, original_height,
        original_width)`: on an error no field has been assigned. */
    method SetFocalAreaFromFocusPoint(x: int, y: int, originalH: int, originalW: int) returns (outcome: Outcome<Error>)
      modifies this
      ensures var r := ComputeFocalArea(x, y, originalH, originalW, old(width), old(height));
        && (r.Success? ==> outcome == Pass && State() == old(State()).(focal := Some(r.value)))
        && (r.Failure? ==> outcome == Fail(r.error) && State() == old(State()))
    {
      if x < 0 || y < 0 || x > originalW || y > originalH {
        return Fail(FocusPointOutOfBounds);
      }
      var fx, fy := x, y;
      if height != originalH {
        if height == 0 || originalH == 0 {
          return Fail(DivisionByZero);
        }
        fx := x * height / originalH;
        fy := y * height / originalH;
      }
      var rectWidth := Min(fx, width - fx) * 2;
      rectWidth := Min(rectWidth, 2 * width / 5);
      var rectHeight := Min(fy, height - fy) * 2;
      rectHeight := Min(rectHeight, 2 * height / 5);
      var side := Min(rectWidth, rectHeight);
      assert side == Min(Span(fx, width), Span(fy, height));
      focal := Some(FocalArea(fx, fy, side, side));
      return Pass;
    }

    /** The assignments that end `update_file`: the converted file, its
        size, the `_file_changed` flag and the fingerprint of `source`. */
    method StoreFile(converted: ConvertedImage, source: string, fileSize: int)
      modifies this
      ensures State() == old(State()).(common := RecordFingerprint(old(common), source, fileSize),
                                       file := Some(converted.file), width := converted.width,
                                       height := converted.height, fileChanged := true)
    {
      common, file, width, height, fileChanged :=
        RecordFingerprint(common, source, fileSize), Some(converted.file), converted.width, converted.height, true;
    }

    /** `update_file`. */
    method UpdateFile(data: AssetRecord, env: Env) returns (outcome: Outcome<Error>)
      modifies this
      ensures Step(State(), outcome) == ImageUpdateFile(old(State()), data, env)
    {
      originalWidth := Some(data.width);
      originalHeight := Some(data.height);
      var src := ExtractImageSource(data, env.settings);
      if src.Failure? {
        return Fail(src.error);
      }
      var downloaded := Download.DownloadImage(src.value, env);
      if downloaded.Failure? {
        return Fail(downloaded.error);
      }
      StoreFile(env.convertImage(downloaded.value), src.value, data.fileSize);
      return Pass;
    }

    /** The `BynderAssetWithFileMixin` part of `update_from_asset_data`:
        mirror the record, then sync the file. */
    method SyncFileFromAssetData(data: AssetRecord, env: Env, force: bool) returns (outcome: Outcome<Error>)
      modifies this
      ensures Step(State(), outcome) ==
        ImageSyncFile(old(State()).(common := MirrorRecord(old(common), data, env.collection)), data, env, force)
    {
      common := MirrorRecord(common, data, env.collection);
      if force || file.None? {
        outcome := UpdateFile(data, env);
        return;
      }
      var changed := AssetFileHasChanged(data, env.settings);
      if changed.Failure? {
        return Fail(changed.error);
      }
      if changed.value {
        outcome := UpdateFile(data, env);
      } else {
        outcome := Pass;
      }
    }

    /** `update_from_asset_data(asset_data, force_download=force)`. */
    method UpdateFromAssetData(data: AssetRecord, env: Env, force: bool) returns (outcome: Outcome<Error>)
      modifies this
      ensures Step(State(), outcome) == ImageApply(old(State()), data, env, force)
    {
      outcome := SyncFileFromAssetData(data, env, force);
      if outcome.Fail? {
        return;
      }
      var current := focal;
      focalPointChanged := false;
      if data.activeOriginalFocusPoint.Some? {
        var p := data.activeOriginalFocusPoint.value;
        outcome := SetFocalAreaFromFocusPoint(p.x, p.y, data.height, data.width);
        if outcome.Fail? {
          return;
        }
        focalPointChanged := current.None? || focal != current;
      }
    }
  }
}
