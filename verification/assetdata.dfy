/** The API representation of a Bynder asset, the exceptions the core raises,
    the Django settings it reads and the external collaborators it calls. */
module AssetData {
  import opened Wrappers
  import Dicts

  newtype byte = x: int | 0 <= x < 256

  /** One chunk of an HTTP response body. */
  type Chunk = seq<byte>

  /** `activeOriginalFocusPoint`; an absent or empty dict is `None`. */
  datatype FocusPoint = FocusPoint(x: int, y: int)

  /** One asset record. Keys that the source reads with `.get(...)` are
      optional; keys it reads with `[...]` are always present. Timestamps are
      integers (seconds). */
  datatype AssetRecord = AssetRecord(
    id: string,
    name: Option<string>,
    copyright: Option<string>,
    description: Option<string>,
    dateModified: int,
    archive: Option<int>,
    limited: Option<int>,
    isPublic: Option<int>,
    fileSize: int,
    width: int,
    height: int,
    original: Option<string>,
    thumbnails: Dicts.Dict,
    videoPreviewURLs: seq<string>,
    activeOriginalFocusPoint: Option<FocusPoint>)

  /** The exceptions raised along the sync paths, with the facts their
      messages carry. */
  datatype Error =
      /** BynderAssetDataError for a derivative missing from `field`
          ("thumbnails" or "videoPreviewURLs"): the key looked for, the
          setting that names it, the asset id when the message gives one, and
          the keys that were available, in order. */
    | MissingDerivative(field: string, key: string, setting: string, assetId: Option<string>, available: seq<string>)
      /** BynderAssetDataError for a document record without 'original'. */
    | MissingOriginal(documentId: string)
      /** BynderAssetFileTooLarge. */
    | FileTooLarge(filename: string, settingName: string, maxFilesize: int)
      /** ValueError: focus point outside the original image. */
    | FocusPointOutOfBounds
      /** ZeroDivisionError while rescaling a focus point. */
    | DivisionByZero
      /** IndexError from `url.split("/")[-2]`. */
    | NoDerivativeSegment(url: string)
      /** IntegrityError from save(). */
    | IntegrityError
      /** AttributeError from reading `obj.file` on a model without a file. */
    | NoFileAttribute

  /** Settings read with `getattr(settings, NAME, default)`; `None` means the
      setting is not defined. */
  datatype Settings = Settings(
    imageSourceThumbnailName: Option<string>,
    videoPrimaryDerivativeName: Option<string>,
    videoFallbackDerivativeName: Option<string>,
    videoPosterImageDerivativeName: Option<string>,
    maxImageFileSize: Option<int>,
    maxDocumentFileSize: Option<int>,
    maxSourceImageWidth: Option<nat>,
    maxSourceImageHeight: Option<nat>,
    formatConversions: map<string, string>,
    bynderDomain: string)

  const DEFAULT_MAX_FILE_SIZE: int := 5242880

  function ImageSourceThumbnailName(s: Settings): string {
    s.imageSourceThumbnailName.GetOr("WagtailSource")
  }

  function VideoPrimaryDerivativeName(s: Settings): string {
    s.videoPrimaryDerivativeName.GetOr("WebPrimary")
  }

  function VideoFallbackDerivativeName(s: Settings): string {
    s.videoFallbackDerivativeName.GetOr("WebFallback")
  }

  function VideoPosterImageDerivativeName(s: Settings): string {
    s.videoPosterImageDerivativeName.GetOr("webimage")
  }

  function MaxImageFileSize(s: Settings): int {
    s.maxImageFileSize.GetOr(DEFAULT_MAX_FILE_SIZE)
  }

  function MaxDocumentFileSize(s: Settings): int {
    s.maxDocumentFileSize.GetOr(DEFAULT_MAX_FILE_SIZE)
  }

  function MaxSourceImageWidth(s: Settings): nat {
    s.maxSourceImageWidth.GetOr(3500)
  }

  function MaxSourceImageHeight(s: Settings): nat {
    s.maxSourceImageHeight.GetOr(3500)
  }

  /** An `InMemoryUploadedFile`: its name, its bytes, the read position of
      its buffer, its size and its guessed content type. */
  datatype UploadedFile = UploadedFile(
    name: string,
    content: seq<byte>,
    position: nat,
    size: nat,
    contentType: Option<string>)

  /** What image conversion hands back: the converted file and the pixel
      size Django's ImageField reads from it. */
  datatype ConvertedImage = ConvertedImage(file: UploadedFile, width: nat, height: nat)

  /** The collaborators outside the core: the settings, the default
      collection, the body each URL streams back, the Willow conversion of a
      downloaded image, and `mimetypes.guess_type`. */
  datatype Env = Env(
    settings: Settings,
    collection: int,
    stream: string -> seq<Chunk>,
    convertImage: UploadedFile -> ConvertedImage,
    guessType: string -> Option<string>)

  /** Python truthiness of an integer flag. */
  predicate Truthy(flag: int) {
    flag != 0
  }
}
