/** `BynderSyncedVideo`: a video that is not copied into Wagtail; the model
    keeps the URLs of the derivatives Bynder serves. */
module Videos {
  import opened Wrappers
  import opened AssetData
  import opened AssetCommon
  import Dicts
  import Paths

  /** The video's state. `fallbackSourceUrl` is `None` after an update
      whose record has no fallback derivative. */
  datatype VideoState = VideoState(
    common: Common,
    originalWidth: Option<int>,
    originalHeight: Option<int>,
    primarySourceUrl: string,
    fallbackSourceUrl: Option<string>,
    posterImageUrl: string)

  /** The latest of `urls` whose derivative name is `name`: a reference
      for the dictionary comprehension below, where a later URL with the
      same name replaces an earlier one. */
  function LastNamed(urls: seq<string>, name: string): Option<string> {
    match LastNamedAt(urls, name)
    case None => None
    case Some(i) => Some(urls[i])
  }

  /** The position of the URL `LastNamed` picks: one with that name that no
      later URL with the same name follows; none iff no URL has the name. */
  function LastNamedAt(urls: seq<string>, name: string): (r: Option<nat>)
    ensures r.None? <==> forall i :: 0 <= i < |urls| ==> Paths.DerivativeName(urls[i]) != Some(name)
    ensures r.Some? ==>
      && r.value < |urls| && Paths.DerivativeName(urls[r.value]) == Some(name)
      && forall j :: r.value < j < |urls| ==> Paths.DerivativeName(urls[j]) != Some(name)
    decreases |urls|
  {
    if urls == [] then None
    else if Paths.DerivativeName(urls[|urls| - 1]) == Some(name) then Some(|urls| - 1)
    else
      var r := LastNamedAt(urls[..|urls| - 1], name);
      assert forall i :: 0 <= i < |urls| - 1 ==> urls[..|urls| - 1][i] == urls[i];
      r
  }

  /** `{v.split("/")[-2]: v for v in asset_data["videoPreviewURLs"]}`,
      which raises IndexError at the first URL without a '/'. */
  function BuildDerivatives(urls: seq<string>): (r: Result<Dicts.Dict, Error>)
    ensures r.Success? <==> forall i :: 0 <= i < |urls| ==> !Paths.NoSlash(urls[i])
    ensures r.Success? ==> Dicts.DistinctKeys(r.value)
    ensures r.Failure? ==>
      exists i :: && 0 <= i < |urls| && Paths.NoSlash(urls[i])
                  && r.error == NoDerivativeSegment(urls[i])
                  && forall j :: 0 <= j < i ==> !Paths.NoSlash(urls[j])
    decreases |urls|
  {
    if urls == [] then Success([])
    else
      var init := urls[..|urls| - 1];
      var last := urls[|urls| - 1];
      assert forall i :: 0 <= i < |init| ==> init[i] == urls[i];
      var d :- BuildDerivatives(init);
      match Paths.DerivativeName(last)
      case None => Failure(NoDerivativeSegment(last))
      case Some(name) =>
        Dicts.PutKeepsDistinct(d, name, last);
        Success(Dicts.Put(d, name, last))
  }

  /** Looking a name up in the derivative table finds the last URL with
      that derivative name. */
  lemma {:induction false} DerivativeLookup(urls: seq<string>, name: string)
    requires BuildDerivatives(urls).Success?
    ensures Dicts.Get(BuildDerivatives(urls).value, name) == LastNamed(urls, name)
    decreases |urls|
  {
    if urls != [] {
      var init := urls[..|urls| - 1];
      var last := urls[|urls| - 1];
      DerivativeLookup(init, name);
      var k := Paths.DerivativeName(last).value;
      assert BuildDerivatives(urls).value == Dicts.Put(BuildDerivatives(init).value, k, last);
      assert LastNamed(urls, name) == if k == name then Some(last) else LastNamed(init, name);
      Dicts.GetPut(BuildDerivatives(init).value, k, last, name);
    }
  }

  /** The update of `BynderSyncedVideo.update_from_asset_data`. The video
      fields are assigned first and the shared fields are mirrored last, so
      a record missing a derivative leaves the object outdated. */
  function VideoApply(s: VideoState, data: AssetRecord, env: Env): (step: Step<VideoState>)
    ensures step.state.common.bynderId == s.common.bynderId
    ensures step.outcome.Pass? ==> step.state.common.lastModified == Some(data.dateModified)
    ensures step.outcome.Fail? ==> step.state.common.lastModified == s.common.lastModified
  {
    var primaryName := VideoPrimaryDerivativeName(env.settings);
    var posterName := VideoPosterImageDerivativeName(env.settings);
    match BuildDerivatives(data.videoPreviewURLs)
    case Failure(e) => Step(s, Fail(e))
    case Success(derivatives) =>
      match Dicts.Get(derivatives, primaryName)
      case None =>
        Step(s, Fail(MissingDerivative("videoPreviewURLs", primaryName, "BYNDER_VIDEO_PRIMARY_DERIVATIVE_NAME",
                                       None, Dicts.Keys(derivatives))))
      case Some(primary) =>
        var s1 := s.(primarySourceUrl := primary,
                     common := s.common.(sourceFilename := Paths.FilenameFromUrl(primary)),
                     fallbackSourceUrl := Dicts.Get(derivatives, VideoFallbackDerivativeName(env.settings)));
        match Dicts.Get(data.thumbnails, posterName)
        case None =>
          Step(s1, Fail(MissingDerivative("thumbnails", posterName, "BYNDER_VIDEO_POSTER_IMAGE_DERIVATIVE_NAME",
                                          s.common.bynderId, Dicts.Keys(data.thumbnails))))
        case Some(poster) =>
          var s2 := s1.(posterImageUrl := poster,
                        common := s1.common.(originalFilesize := Some(data.fileSize)),
                        originalWidth := Some(data.width),
                        originalHeight := Some(data.height));
          Step(s2.(common := MirrorRecord(s2.common, data, env.collection)), Pass)
  }

  /** A successful update points the video at the last preview URL of the
      primary derivative, at the last one of the fallback derivative (or
      none), and at the poster thumbnail, and leaves it up to date. */
  lemma VideoApplyOutcome(s: VideoState, data: AssetRecord, env: Env)
    requires VideoApply(s, data, env).outcome.Pass?
    ensures var t := VideoApply(s, data, env).state;
      var urls := data.videoPreviewURLs;
      && Some(t.primarySourceUrl) == LastNamed(urls, VideoPrimaryDerivativeName(env.settings))
      && t.fallbackSourceUrl == LastNamed(urls, VideoFallbackDerivativeName(env.settings))
      && Some(t.posterImageUrl) == Dicts.Get(data.thumbnails, VideoPosterImageDerivativeName(env.settings))
      && t.common.sourceFilename == Paths.FilenameFromUrl(t.primarySourceUrl)
      && t.common.originalFilesize == Some(data.fileSize)
      && t.originalWidth == Some(data.width) && t.originalHeight == Some(data.height)
      && t.common.lastModified == Some(data.dateModified)
      && IsUpToDate(t.common.lastModified, data)
      && t.common.bynderId == s.common.bynderId
  {
    DerivativeLookup(data.videoPreviewURLs, VideoPrimaryDerivativeName(env.settings));
    DerivativeLookup(data.videoPreviewURLs, VideoFallbackDerivativeName(env.settings));
  }

  /** The update fails exactly when a preview URL has no '/', the primary
      derivative is missing from the preview URLs, or the poster derivative
      is missing from the thumbnails; it then has not mirrored the record,
      so the object still holds its old timestamp, title and flags. The
      first case raises the comprehension's IndexError at the first URL
      without a '/' and assigns nothing; the second raises
      BynderAssetDataError listing the derivative names found, and
      assigns nothing; the third raises BynderAssetDataError naming the
      video and listing the thumbnail names, after the primary source,
      its filename and the fallback have been assigned. */
  lemma VideoApplyFailure(s: VideoState, data: AssetRecord, env: Env)
    ensures var urls := data.videoPreviewURLs;
      VideoApply(s, data, env).outcome.Fail? <==>
        (exists i :: 0 <= i < |urls| && Paths.NoSlash(urls[i]))
        || LastNamed(urls, VideoPrimaryDerivativeName(env.settings)).None?
        || VideoPosterImageDerivativeName(env.settings) !in Dicts.Keys(data.thumbnails)
    ensures VideoApply(s, data, env).outcome.Fail? ==>
      var c := VideoApply(s, data, env).state.common;
      c == s.common.(sourceFilename := c.sourceFilename)
    ensures var d := BuildDerivatives(data.videoPreviewURLs);
      d.Failure? ==> VideoApply(s, data, env) == Step(s, Fail(d.error))
    ensures var d := BuildDerivatives(data.videoPreviewURLs);
      var primaryName := VideoPrimaryDerivativeName(env.settings);
      d.Success? && LastNamed(data.videoPreviewURLs, primaryName).None? ==>
        VideoApply(s, data, env) ==
          Step(s, Fail(MissingDerivative("videoPreviewURLs", primaryName, "BYNDER_VIDEO_PRIMARY_DERIVATIVE_NAME",
                                         None, Dicts.Keys(d.value))))
    ensures var urls := data.videoPreviewURLs;
      var primary := LastNamed(urls, VideoPrimaryDerivativeName(env.settings));
      var posterName := VideoPosterImageDerivativeName(env.settings);
      BuildDerivatives(urls).Success? && primary.Some? && posterName !in Dicts.Keys(data.thumbnails) ==>
        VideoApply(s, data, env) ==
          Step(s.(primarySourceUrl := primary.value,
                  common := s.common.(sourceFilename := Paths.FilenameFromUrl(primary.value)),
                  fallbackSourceUrl := LastNamed(urls, VideoFallbackDerivativeName(env.settings))),
               Fail(MissingDerivative("thumbnails", posterName, "BYNDER_VIDEO_POSTER_IMAGE_DERIVATIVE_NAME",
                                      s.common.bynderId, Dicts.Keys(data.thumbnails))))
  {
    var urls := data.videoPreviewURLs;
    if BuildDerivatives(urls).Success? {
      DerivativeLookup(urls, VideoPrimaryDerivativeName(env.settings));
      DerivativeLookup(urls, VideoFallbackDerivativeName(env.settings));
    }
  }

  /** Applying the same record again changes nothing. */
  lemma VideoApplySettles(s: VideoState, data: AssetRecord, env: Env)
    requires VideoApply(s, data, env).outcome.Pass?
    ensures var t := VideoApply(s, data, env).state;
      VideoApply(t, data, env) == Step(t, Pass)
  {
    var t := VideoApply(s, data, env).state;
    var primary := Dicts.Get(BuildDerivatives(data.videoPreviewURLs).value, VideoPrimaryDerivativeName(env.settings)).value;
    var s1 := s.(primarySourceUrl := primary,
                 common := s.common.(sourceFilename := Paths.FilenameFromUrl(primary)));
    MirrorIdempotent(s1.common.(originalFilesize := Some(data.fileSize)), data, env.collection);
  }

  /** A video model instance. */
  class SyncedVideo {
    var common: Common
    var originalWidth: Option<int>
    var originalHeight: Option<int>
    var primarySourceUrl: string
    var fallbackSourceUrl: Option<string>
    var posterImageUrl: string

    function State(): VideoState
      reads this
    {
      VideoState(common, originalWidth, originalHeight, primarySourceUrl, fallbackSourceUrl, posterImageUrl)
    }

    constructor(s: VideoState)
      ensures State() == s
    {
      common := s.common;
      originalWidth := s.originalWidth;
      originalHeight := s.originalHeight;
      primarySourceUrl := s.primarySourceUrl;
      fallbackSourceUrl := s.fallbackSourceUrl;
      posterImageUrl := s.posterImageUrl;
    }

    /** The source URL assignments of `update_from_asset_data`. */
    method SetSources(primary: string, fallback: Option<string>)
      modifies this
      ensures State() == old(State()).(primarySourceUrl := primary,
                                       common := old(common).(sourceFilename := Paths.FilenameFromUrl(primary)),
                                       fallbackSourceUrl := fallback)
    {
      primarySourceUrl := primary;
      common := common.(sourceFilename := Paths.FilenameFromUrl(primary));
      fallbackSourceUrl := fallback;
    }

    /** The poster and original-size assignments of `update_from_asset_data`. */
    method SetPoster(poster: string, data: AssetRecord)
      modifies this
      ensures State() == old(State()).(posterImageUrl := poster,
                                       common := old(common).(originalFilesize := Some(data.fileSize)),
                                       originalWidth := Some(data.width), originalHeight := Some(data.height))
    {
      posterImageUrl := poster;
      common := common.(originalFilesize := Some(data.fileSize));
      originalWidth := Some(data.width);
      originalHeight := Some(data.height);
    }

    /** `update_from_asset_data`; videos take no `force_download`. */
    method UpdateFromAssetData(data: AssetRecord, env: Env) returns (outcome: Outcome<Error>)
      modifies this
      ensures Step(State(), outcome) == VideoApply(old(State()), data, env)
    {
      var primaryName := VideoPrimaryDerivativeName(env.settings);
      var posterName := VideoPosterImageDerivativeName(env.settings);
      var derivatives := BuildDerivatives(data.videoPreviewURLs);
      if derivatives.Failure? {
        return Fail(derivatives.error);
      }
      var primary := Dicts.Get(derivatives.value, primaryName);
      if primary.None? {
        return Fail(MissingDerivative("videoPreviewURLs", primaryName, "BYNDER_VIDEO_PRIMARY_DERIVATIVE_NAME",
                                      None, Dicts.Keys(derivatives.value)));
      }
      SetSources(primary.value, Dicts.Get(derivatives.value, VideoFallbackDerivativeName(env.settings)));
      var poster := Dicts.Get(data.thumbnails, posterName);
      if poster.None? {
        return Fail(MissingDerivative("thumbnails", posterName, "BYNDER_VIDEO_POSTER_IMAGE_DERIVATIVE_NAME",
                                      common.bynderId, Dicts.Keys(data.thumbnails)));
      }
      SetPoster(poster.value, data);
      common := MirrorRecord(common, data, env.collection);
      return Pass;
    }
  }
}
