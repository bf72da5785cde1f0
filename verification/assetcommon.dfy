/** The fields and behaviour every synced asset shares (`BynderAssetMixin`
    and the file check of `BynderAssetWithFileMixin`). */
module AssetCommon {
  import opened Wrappers
  import opened AssetData
  import Paths

  /** The `BynderAssetMixin` fields, plus the `title` and `collection`
      every concrete model has. A blank `bynder_id` is `None`. */
  datatype Common = Common(
    bynderId: Option<string>,
    title: string,
    collection: int,
    lastModified: Option<int>,
    sourceFilename: string,
    originalFilesize: Option<int>,
    description: string,
    copyright: string,
    isArchived: bool,
    isLimitedUse: bool,
    isPublic: bool)

  /** The state an update leaves behind and whether it raised: the source
      assigns fields one after another, so an exception leaves the
      assignments made before it in place (unsaved) on the object. */
  datatype Step<S> = Step(state: S, outcome: Outcome<Error>)

  /** `is_up_to_date`: an object that has never been synced (no
      `bynder_last_modified`) counts as up to date, as does one whose
      timestamp is not older than the record's. */
  function IsUpToDate(lastModified: Option<int>, data: AssetRecord): (r: bool)
    ensures lastModified.None? ==> r
    ensures lastModified == Some(data.dateModified) ==> r
    ensures lastModified.Some? && lastModified.value < data.dateModified ==> !r
    ensures lastModified.Some? && lastModified.value > data.dateModified ==> r
  {
    lastModified.None? || lastModified.value >= data.dateModified
  }

  /** An optional integer flag read with `.get(key, 0)` and passed to
      `bool()`. */
  predicate FlagSet(flag: Option<int>) {
    Truthy(flag.GetOr(0))
  }

  /** The field updates of `BynderAssetMixin.update_from_asset_data`. */
  function MirrorRecord(c: Common, data: AssetRecord, collection: int): (m: Common)
    ensures m.bynderId == c.bynderId
    ensures m.sourceFilename == c.sourceFilename && m.originalFilesize == c.originalFilesize
    ensures m.lastModified == Some(data.dateModified)
    ensures m.collection == collection
    ensures m.isArchived <==> data.archive.Some? && data.archive.value != 0
    ensures m.isLimitedUse <==> data.limited.Some? && data.limited.value != 0
    ensures m.isPublic <==> data.isPublic.Some? && data.isPublic.value != 0
    ensures data.name.Some? ==> m.title == data.name.value
    ensures data.name.None? ==> m.title == c.title
    ensures data.copyright.Some? ==> m.copyright == data.copyright.value
    ensures data.copyright.None? ==> m.copyright == c.copyright
    ensures data.description.Some? ==> m.description == data.description.value
    ensures data.description.None? ==> m.description == c.description
  {
    c.(title := data.name.GetOr(c.title),
       copyright := data.copyright.GetOr(c.copyright),
       description := data.description.GetOr(c.description),
       collection := collection,
       lastModified := Some(data.dateModified),
       isArchived := FlagSet(data.archive),
       isLimitedUse := FlagSet(data.limited),
       isPublic := FlagSet(data.isPublic))
  }

  /** Mirroring a record leaves the object up to date with it. */
  lemma MirrorMakesUpToDate(c: Common, data: AssetRecord, collection: int)
    ensures IsUpToDate(MirrorRecord(c, data, collection).lastModified, data)
  {
  }

  /** Mirroring the same record twice changes nothing the second time. */
  lemma MirrorIdempotent(c: Common, data: AssetRecord, collection: int)
    ensures MirrorRecord(MirrorRecord(c, data, collection), data, collection) == MirrorRecord(c, data, collection)
  {
  }

  /** A record that carries a name, a copyright and a description fixes
      every mirrored field: two objects with the same id and file
      fingerprint end up identical whatever they held before. A record
      missing one of them keeps the object's old value for it. */
  lemma MirrorOverwritesWhenPresent(c1: Common, c2: Common, data: AssetRecord, collection: int)
    requires c1.bynderId == c2.bynderId
    requires c1.sourceFilename == c2.sourceFilename && c1.originalFilesize == c2.originalFilesize
    ensures data.name.Some? && data.copyright.Some? && data.description.Some? ==>
      MirrorRecord(c1, data, collection) == MirrorRecord(c2, data, collection)
    ensures data.name.None? ==> MirrorRecord(c1, data, collection).title == c1.title
    ensures data.name.Some? ==> MirrorRecord(c1, data, collection).title == data.name.value
    ensures data.copyright.None? ==> MirrorRecord(c1, data, collection).copyright == c1.copyright
    ensures data.copyright.Some? ==> MirrorRecord(c1, data, collection).copyright == data.copyright.value
    ensures data.description.None? ==> MirrorRecord(c1, data, collection).description == c1.description
    ensures data.description.Some? ==> MirrorRecord(c1, data, collection).description == data.description.value
  {
  }

  /** The file check of `BynderAssetWithFileMixin.asset_file_has_changed`,
      given the source URL: the filename at the end of the URL or the
      recorded size differ, or no size was ever recorded. */
  function BaseFileChanged(c: Common, sourceUrl: string, fileSize: int): (r: bool)
    ensures c.originalFilesize.None? ==> r
    ensures !r <==> c.sourceFilename == Paths.FilenameFromUrl(sourceUrl) && c.originalFilesize == Some(fileSize)
  {
    c.sourceFilename != Paths.FilenameFromUrl(sourceUrl)
    || c.originalFilesize.None?
    || c.originalFilesize.value != fileSize
  }

  /** The fingerprint `update_file` records after a download. */
  function RecordFingerprint(c: Common, sourceUrl: string, fileSize: int): (r: Common)
    ensures !BaseFileChanged(r, sourceUrl, fileSize)
    ensures r.(sourceFilename := c.sourceFilename, originalFilesize := c.originalFilesize) == c
  {
    c.(sourceFilename := Paths.FilenameFromUrl(sourceUrl), originalFilesize := Some(fileSize))
  }

  /** Mirroring a record and recording a fingerprint touch disjoint fields,
      so the fingerprint survives a later mirror. */
  lemma MirrorKeepsFingerprint(c: Common, data: AssetRecord, collection: int, sourceUrl: string, fileSize: int)
    ensures BaseFileChanged(MirrorRecord(c, data, collection), sourceUrl, fileSize) == BaseFileChanged(c, sourceUrl, fileSize)
  {
  }

  /** A mirrored object that then recorded a fingerprint is still a mirror
      of the same record. */
  lemma MirrorAfterFingerprint(c: Common, data: AssetRecord, collection: int, sourceUrl: string, fileSize: int)
    ensures var f := RecordFingerprint(MirrorRecord(c, data, collection), sourceUrl, fileSize);
      MirrorRecord(f, data, collection) == f
  {
  }

  /** Recording the fingerprint of a file that has not changed changes
      nothing. */
  lemma FingerprintOfUnchanged(c: Common, sourceUrl: string, fileSize: int)
    requires !BaseFileChanged(c, sourceUrl, fileSize)
    ensures RecordFingerprint(c, sourceUrl, fileSize) == c
  {
  }
}
