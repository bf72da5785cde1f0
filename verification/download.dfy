/** utils.py's downloads: the response body is streamed chunk by chunk into
    an in-memory buffer, and the download is abandoned as soon as the buffer
    grows past the size limit. */
module Download {
  import opened Wrappers
  import opened AssetData
  import Paths

  /** The bytes of `chunks`, in order. */
  function Flatten(chunks: seq<Chunk>): (bytes: seq<byte>)
  {
    if chunks == [] then [] else Flatten(chunks[..|chunks| - 1]) + chunks[|chunks| - 1]
  }

  /** A longer prefix of the stream never holds fewer bytes. */
  lemma {:induction false} FlattenPrefixGrows(chunks: seq<Chunk>, k: nat, j: nat)
    requires k <= j <= |chunks|
    ensures |Flatten(chunks[..k])| <= |Flatten(chunks[..j])|
    decreases j - k
  {
    if k < j {
      FlattenPrefixGrows(chunks, k, j - 1);
      assert chunks[..j][..j - 1] == chunks[..j - 1];
    }
  }

  /** The outcome of `download_file(url, max_filesize, setting_name)` when
      the response streams `chunks`: the size is checked only after a chunk
      has been written, so an empty body is accepted whatever the limit. */
  function Downloaded(url: string, chunks: seq<Chunk>, maxFilesize: int, settingName: string,
                      guessType: string -> Option<string>): (r: Result<UploadedFile, Error>)
    ensures r.Failure? <==> |chunks| > 0 && |Flatten(chunks)| > maxFilesize
    ensures r.Failure? ==> r.error == FileTooLarge(Paths.FilenameFromUrl(url), settingName, maxFilesize)
    ensures r.Success? ==> && r.value.name == Paths.FilenameFromUrl(url)
                           && r.value.content == Flatten(chunks)
                           && r.value.position == 0 && r.value.size == |r.value.content|
  {
    var name := Paths.FilenameFromUrl(url);
    var bytes := Flatten(chunks);
    if |chunks| > 0 && |bytes| > maxFilesize then Failure(FileTooLarge(name, settingName, maxFilesize))
    else Success(UploadedFile(name, bytes, 0, |bytes|, guessType(name)))
  }

  /** `download_file`. The ghost `consumed` counts the chunks read from the
      stream before returning or raising. */
  method DownloadFile(url: string, chunks: seq<Chunk>, maxFilesize: int, settingName: string,
                      guessType: string -> Option<string>)
    returns (r: Result<UploadedFile, Error>, ghost consumed: nat)
    ensures r == Downloaded(url, chunks, maxFilesize, settingName, guessType)
    ensures consumed <= |chunks|
    ensures r.Success? ==>
      && consumed == |chunks|
      && r.value.name == Paths.FilenameFromUrl(url)
      && r.value.content == Flatten(chunks)
      && r.value.size == |Flatten(chunks)|
      && r.value.position == 0
      && (|chunks| > 0 ==> r.value.size <= maxFilesize)
    ensures r.Failure? ==>
      && r.error == FileTooLarge(Paths.FilenameFromUrl(url), settingName, maxFilesize)
      && 1 <= consumed
      && |Flatten(chunks[..consumed])| > maxFilesize
      && (forall k :: 1 <= k < consumed ==> |Flatten(chunks[..k])| <= maxFilesize)
  {
    var name := Paths.FilenameFromUrl(url);
    // The BytesIO buffer; every write appends, so tell() is its length.
    var buffer: seq<byte> := [];
    var i := 0;
    while i < |chunks|
      invariant 0 <= i <= |chunks|
      invariant buffer == Flatten(chunks[..i])
      invariant forall k :: 1 <= k <= i ==> |Flatten(chunks[..k])| <= maxFilesize
    {
      assert chunks[..i + 1][..i] == chunks[..i];
      buffer := buffer + chunks[i];
      i := i + 1;
      if |buffer| > maxFilesize {
        buffer := [];
        FlattenPrefixGrows(chunks, i, |chunks|);
        assert chunks[..|chunks|] == chunks;
        consumed := i;
        r := Failure(FileTooLarge(name, settingName, maxFilesize));
        return;
      }
    }
    assert chunks[..i] == chunks;
    consumed := i;
    r := Success(UploadedFile(name, buffer, 0, |buffer|, guessType(name)));
  }

  /** `download_image`: the limit is BYNDER_MAX_IMAGE_FILE_SIZE, 5242880
      bytes unless set. */
  function ImageDownload(url: string, env: Env): (r: Result<UploadedFile, Error>)
    ensures r.Failure? ==> r.error == FileTooLarge(Paths.FilenameFromUrl(url), "BYNDER_MAX_IMAGE_FILE_SIZE",
                                                   MaxImageFileSize(env.settings))
    ensures r.Success? && env.stream(url) != [] ==> r.value.size <= MaxImageFileSize(env.settings)
  {
    Downloaded(url, env.stream(url), MaxImageFileSize(env.settings), "BYNDER_MAX_IMAGE_FILE_SIZE", env.guessType)
  }

  /** `download_document`: the limit is BYNDER_MAX_DOCUMENT_FILE_SIZE,
      5242880 bytes unless set. */
  function DocumentDownload(url: string, env: Env): (r: Result<UploadedFile, Error>)
    ensures r.Failure? ==> r.error == FileTooLarge(Paths.FilenameFromUrl(url), "BYNDER_MAX_DOCUMENT_FILE_SIZE",
                                                   MaxDocumentFileSize(env.settings))
    ensures r.Success? && env.stream(url) != [] ==> r.value.size <= MaxDocumentFileSize(env.settings)
  {
    Downloaded(url, env.stream(url), MaxDocumentFileSize(env.settings), "BYNDER_MAX_DOCUMENT_FILE_SIZE", env.guessType)
  }

  method DownloadImage(url: string, env: Env) returns (r: Result<UploadedFile, Error>)
    ensures r == ImageDownload(url, env)
    ensures env.settings.maxImageFileSize.None? && r.Success? && env.stream(url) != [] ==> r.value.size <= 5242880
    ensures r.Failure? ==> r.error.FileTooLarge? && r.error.settingName == "BYNDER_MAX_IMAGE_FILE_SIZE"
  {
    ghost var consumed;
    r, consumed := DownloadFile(url, env.stream(url), MaxImageFileSize(env.settings), "BYNDER_MAX_IMAGE_FILE_SIZE", env.guessType);
  }

  method DownloadDocument(url: string, env: Env) returns (r: Result<UploadedFile, Error>)
    ensures r == DocumentDownload(url, env)
    ensures env.settings.maxDocumentFileSize.None? && r.Success? && env.stream(url) != [] ==> r.value.size <= 5242880
    ensures r.Failure? ==> r.error.FileTooLarge? && r.error.settingName == "BYNDER_MAX_DOCUMENT_FILE_SIZE"
  {
    ghost var consumed;
    r, consumed := DownloadFile(url, env.stream(url), MaxDocumentFileSize(env.settings), "BYNDER_MAX_DOCUMENT_FILE_SIZE", env.guessType);
  }
}
