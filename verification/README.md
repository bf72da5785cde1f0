# wagtail-bynder, modelled in Dafny

wagtail-bynder keeps local Wagtail copies of assets held in the Bynder
digital asset manager. Images and documents are stored with a downloaded
file. Videos are stored as remote URLs only. This project models the core of
that synchronisation and proves properties about it:

- **Mirroring one record onto one object** (`update_from_asset_data`).
  - The common metadata, the up-to-date test and the fingerprint that says
    whether the file must be downloaded again.
  - The image path: source thumbnail, bounded download, conversion,
    dimensions, and the focal area derived from Bynder's focus point.
  - The document path: the `original` URL and a bounded download.
  - The video path: derivative URLs picked by their second-to-last path
    segment, and the poster thumbnail.
- **The helpers in `utils.py`**: the streamed, size-limited download, the
  output-format table and `filename_from_url`.
- **The sync management commands** (`BaseBynderSyncCommand`).
  - Paging through the media list, and batching records 200 at a time by id.
  - Selecting the stale objects of a batch, and updating and saving each one.
  - The image command's override re-fetches the full record first.
- **The chooser views' mixins.**
  - Find-or-create of a local copy, including recovery when a concurrent
    request inserts the same `bynder_id` first.
  - The conditional refresh of an existing copy.
  - The redirect of edit views to the asset's Bynder page.

Each model class (`SyncedImage`, `SyncedDocument`, `SyncedVideo`) has the
fields the source mutates. Its methods are proved equal to pure functions
on a state value (`ImageApply`, `DocumentApply`, `VideoApply`). These return
a `Step`: the state reached, plus whether an exception ended the operation.
This keeps assignments made before an exception visible, as they are in the
Python code.

The table of one model is the `Store.Database` class. It maps each
`bynder_id` to a row and records the names of the files in media storage.
The sync command (`SyncCommand.BynderSyncCommand`) and the view mixin
(`Resolver`) are imperative loops and updates on that table. They are
proved against the functions `Batching.Batches`, `Refresh.Refreshed` and
`Refresh.RefreshAll`. The command holds its per-object update as a function
value (`Refresh.Updater`). `Refresh.Faithful` says that value is the
model's own `update_from_asset_data`, and the command's constructor builds
it so. The lemmas about what a run achieves require `Faithful`; the loops
need only that an update keeps the `bynder_id` (`Refresh.KeepsIds`).

These collaborators are parameters:

- the Bynder API (`media_list` and `media_info` become functions from a
  query or an id to records);
- the HTTP body of each URL, as a sequence of chunks;
- Django settings;
- the default collection;
- Willow's image conversion;
- `mimetypes.guess_type`;
- the current time.

Where the package's described behaviour and its code differ, the model
follows the code:

- `is_up_to_date` is true when `bynder_last_modified` is empty
  (`not self.bynder_last_modified or …`, models.py:108-112).
- Paging stops only on an empty page, not on a short one (base.py:61-62).
- Only an animated GIF is converted to PNG by default (utils.py:76-78).
- The download's content type comes only from guessing by file name
  (utils.py:41).

## Model

| member | source | states |
|---|---|---|
| Paths.FilenameFromUrl | src/wagtail_bynder/utils.py:87-88 | the file name is a slash-free suffix of the URL, and the whole URL when it has no slash |
| Paths.JoinSplit | src/wagtail_bynder/utils.py:87-88 | splitting a URL on '/' and joining the parts back gives the URL again |
| Paths.SplitPartsHaveNoSlash | src/wagtail_bynder/utils.py:87-88 | no part of the split contains a slash |
| Paths.FilenameIsLastPart | src/wagtail_bynder/utils.py:87-88 | the basename is the last part of the URL split on '/' |
| Paths.FilenameFromUrlIdempotent | src/wagtail_bynder/utils.py:87-88 | taking the basename of a basename changes nothing |
| Paths.DerivativeName | src/wagtail_bynder/models.py:592 | `v.split("/")[-2]` fails exactly when the URL has no slash, and otherwise yields a slash-free segment |
| Dicts.GetPut | src/wagtail_bynder/models.py:592 | after storing `k: v` a lookup of `k` gives `v`, and every other key keeps its value (a later URL with the same name wins) |
| Dicts.PutKeys | src/wagtail_bynder/models.py:592 | storing a key appends it to the keys only when it was absent (insertion order of `keys()`) |
| Dicts.PutKeepsDistinct | src/wagtail_bynder/models.py:592 | a dict built by storing keys never holds a key twice |
| AssetCommon.MirrorRecord | src/wagtail_bynder/models.py:127-134 | mirroring keeps the id and the file fingerprint, sets `bynder_last_modified` to the record's `dateModified` and the collection to the default, sets each flag iff its value is present and non-zero, and sets title, copyright and description each to the record's value when present and keeps the old value when absent |
| AssetCommon.IsUpToDate | src/wagtail_bynder/models.py:103-112 | an object with no stored timestamp is up to date; otherwise it is up to date iff its timestamp is not older than the record's `dateModified` (equal counts as up to date) |
| AssetCommon.BaseFileChanged | src/wagtail_bynder/models.py:166-173 | the file counts as unchanged iff the stored source file name is the basename of the source URL and a stored size equals the record's `fileSize`; with no stored size it always counts as changed |
| AssetCommon.MirrorMakesUpToDate | src/wagtail_bynder/models.py:103-112 | an object that mirrored a record is up to date against that record (the comparison is `>=`) |
| AssetCommon.MirrorIdempotent | src/wagtail_bynder/models.py:127-134 | mirroring the same record twice is the same as mirroring it once |
| AssetCommon.MirrorOverwritesWhenPresent | src/wagtail_bynder/models.py:127-129 | for two objects with the same id and fingerprint: title, copyright and description each take the record's value when present and keep the object's own when absent, so with all three present the earlier values do not matter |
| AssetCommon.RecordFingerprint | src/wagtail_bynder/models.py:185-187 | after `update_file` records the source file name and size, `asset_file_has_changed`'s base test is false for that URL and size, and no other field changes |
| AssetCommon.MirrorAfterFingerprint | src/wagtail_bynder/models.py:127-134 | an object that mirrored a record and then recorded a file fingerprint still mirrors that record |
| AssetCommon.FingerprintOfUnchanged | src/wagtail_bynder/models.py:166-187 | recording the fingerprint of a file that does not count as changed leaves the object as it was |
| AssetCommon.MirrorKeepsFingerprint | src/wagtail_bynder/models.py:166-173 | mirroring metadata never changes whether the file counts as changed |
| Download.DownloadFile | src/wagtail_bynder/utils.py:23-49 | the streamed download either returns a file named after the URL's basename, holding all the bytes, rewound, with its size at most the limit, or fails with FileTooLarge for that name and setting at the first chunk that takes the buffer past the limit, with every earlier prefix within it |
| Download.DownloadImage | src/wagtail_bynder/utils.py:58-61 | the image download uses BYNDER_MAX_IMAGE_FILE_SIZE, 5242880 bytes when unset, and fails only with FileTooLarge naming that setting |
| Download.DownloadDocument | src/wagtail_bynder/utils.py:52-55 | the document download uses BYNDER_MAX_DOCUMENT_FILE_SIZE, 5242880 bytes when unset, and fails only with FileTooLarge naming that setting |
| Download.Downloaded | src/wagtail_bynder/utils.py:23-49 | fails iff some chunk arrived and the bytes streamed exceed the limit, with FileTooLarge for the URL's basename, the setting name and the limit; otherwise the file is named after the basename, holds every streamed byte in order, is rewound to position 0, and its size is its length |
| Download.ImageDownload | src/wagtail_bynder/utils.py:58-61 | fails only with FileTooLarge naming BYNDER_MAX_IMAGE_FILE_SIZE and its limit, and a non-empty download that succeeds is within that limit |
| Download.DocumentDownload | src/wagtail_bynder/utils.py:52-55 | fails only with FileTooLarge naming BYNDER_MAX_DOCUMENT_FILE_SIZE and its limit, and a non-empty download that succeeds is within that limit |
| ImageFormats.GetOutputImageFormat | src/wagtail_bynder/utils.py:70-84 | a custom conversion wins; otherwise avif, bmp and webp become png, gif becomes png only when animated, and every other format is kept |
| ImageFormats.GifConvertedOnlyWhenAnimated | src/wagtail_bynder/utils.py:76-78 | with no custom conversions an animated gif becomes png and a still gif stays gif |
| ImageFormats.MaxSizeSpecHasNoSpace | src/wagtail_bynder/models.py:335-338 | the `max-WxH` operation is a single filter token |
| ImageFormats.FilterStringAsksForJpegIffJpeg | src/wagtail_bynder/models.py:327-346 | the filter string starts with the max-size operation and ends in `format-jpeg jpegquality-90` iff the output format is jpeg |
| ImageFormats.GetSourceImageFilterString | src/wagtail_bynder/models.py:327-346 | the filter string is the max-size operation, followed either by nothing or by `format-jpeg jpegquality-90`; which one, by output format, is `ImageFormats.FilterStringAsksForJpegIffJpeg` |
| Focal.ComputeFocalArea | src/wagtail_bynder/models.py:393-430 | raises the bounds error iff the focus point is outside the original, raises division by zero iff it is inside but the scale cannot be computed, and otherwise yields a square |
| Focal.FocalCentreIsScaledFocusPoint | src/wagtail_bynder/models.py:405-414 | the centre is the focus point itself when the heights agree, and otherwise the focus point scaled by height/original height, rounded down |
| Focal.FocalSideBounds | src/wagtail_bynder/models.py:416-430 | the side is at most twice the distance from the centre to each edge and at most 40% of the width and of the height |
| Focal.FocalCentreYInside | src/wagtail_bynder/models.py:405-414 | the scaled centre lies within the stored image's height |
| Focal.FocalCentreXInside | src/wagtail_bynder/models.py:405-414 | when the stored image keeps at least the original's aspect, the scaled centre lies within its width |
| Focal.FocalAreaInsideImage | src/wagtail_bynder/models.py:416-430 | with the centre inside the image, the whole square lies inside it |
| Focal.FocalAreaExample | tests/test_models.py:248-251 | the focus point (541, 550) on a 3000x2008 original stored at 50x50 gives centre (13, 13) and side 20 |
| Focal.FocusPointBoundsInclusive | src/wagtail_bynder/models.py:400-403 | a focus point on the original's edge is accepted, and one past it is refused |
| Images.ExtractImageSource | src/wagtail_bynder/models.py:432-447 | the source is the thumbnail named by BYNDER_IMAGE_SOURCE_THUMBNAIL_NAME when present, and otherwise a data error naming the key, the setting, the asset and the available keys |
| Images.ImageUpdateFile | src/wagtail_bynder/models.py:279-282 | the image's file update never changes its `bynder_id` |
| Images.ImageRefocus | src/wagtail_bynder/models.py:256-270 | changes only the focal area and `_focal_point_changed`. Without a focus point the flag is reset and nothing else changes. With one, a failing computation raises with the flag reset and the area kept. Otherwise the area is the one computed against the stored image size, and the flag is raised iff there was no area before or it differs |
| Images.ImageSyncFile | src/wagtail_bynder/models.py:163-164 | `update_file` runs iff forced, no file yet, or the file has changed; otherwise the state is unchanged; the `bynder_id` is kept |
| Images.ImageApply | src/wagtail_bynder/models.py:243-270 | the image update never changes the `bynder_id` |
| Images.ImageUpdateFileSettlesFile | src/wagtail_bynder/models.py:175-187 | after a successful file update the file is the converted download of the source thumbnail, width and height are the converted image's, the original dimensions are the record's, the focal area is untouched, and the file no longer counts as changed |
| Images.ImageUpdateFileFailure | src/wagtail_bynder/models.py:279-282 | a failed file update has still recorded the original dimensions and changed nothing else, and failed with a missing derivative or a file that was too large |
| Images.ImageRefocusSettles | src/wagtail_bynder/models.py:256-270 | refocusing again from the same record changes nothing and reports the focal point unchanged |
| Images.ImageRefocusFailure | src/wagtail_bynder/models.py:259-266 | refocusing fails iff the record has a focus point that is out of bounds or cannot be scaled, and a failure leaves the focal area as it was |
| Images.ImageSyncFileOutcome | src/wagtail_bynder/models.py:163-164 | a successful conditional download leaves a file, the fingerprint of the source thumbnail, the focal area as it was, and nothing counting as changed; when due, the file and size are the converted download and `_file_changed` is set, and otherwise the image is as it was |
| Images.ImageApplyOutcome | src/wagtail_bynder/models.py:243-270 | a successful image update leaves the image up to date, with a file that no longer counts as changed. When `update_file` was due (forced, no file, or changed) the file and size are the converted download and `_file_changed` is set; otherwise file, sizes and flag are as before. With a focus point the focal area is the one computed against the new stored size, and `_focal_point_changed` is raised iff there was no area before or it differs. Without one the area is kept and the flag is reset to false |
| Images.ImageApplySettles | src/wagtail_bynder/models.py:243-270 | applying the same record again, unforced, succeeds and changes nothing but clearing the focal-changed flag |
| Images.ImageFileHasChangedCases | src/wagtail_bynder/models.py:272-277 | the image's file test fails iff the source thumbnail is missing; otherwise it reports a change iff the base name-and-size test holds or a stored original dimension (0 when none) differs from the record's; in particular a stored dimension that differs from a non-zero record dimension is a change |
| Images.ImageFileHasChanged | src/wagtail_bynder/models.py:272-277 | fails iff the source thumbnail is missing from `thumbnails`; a stored original height or width (0 when none) that differs from the record's always counts as a change (the full iff is `Images.ImageFileHasChangedCases`) |
| Images.ImageApplyWhenSettled | src/wagtail_bynder/models.py:153-164 | an image that holds a file matching the record and already mirrors it downloads nothing on an unforced update and goes straight to the focal step |
| Images.SyncedImage.AssetFileHasChanged | src/wagtail_bynder/models.py:272-277 | fails iff the source thumbnail is missing; otherwise reports a change iff the base name-and-size test holds or `(original_height or 0)` or `(original_width or 0)` differs from the record's |
| Images.SyncedImage.SetFocalAreaFromFocusPoint | src/wagtail_bynder/models.py:393-430 | sets the focal area to the computed one, or raises the computed error and changes nothing |
| Images.SyncedImage.StoreFile | src/wagtail_bynder/models.py:180-187 | stores the converted file and its pixel size, raises the file-changed flag and records the source's fingerprint, and changes nothing else |
| Images.SyncedImage.UpdateFile | src/wagtail_bynder/models.py:279-282 | the image's fields change exactly as the file-update function says, including on failure |
| Images.SyncedImage.SyncFileFromAssetData | src/wagtail_bynder/models.py:153-164 | the file mixin's part of the update changes the image's fields exactly as the file-sync function says after mirroring, including on failure |
| Images.SyncedImage.UpdateFromAssetData | src/wagtail_bynder/models.py:243-270 | the image's fields change exactly as the image update function says, including on failure |
| Documents.ExtractDocumentSource | src/wagtail_bynder/models.py:467-477 | the source is the record's `original` when present, and otherwise a data error for that document |
| Documents.DocumentUpdateFile | src/wagtail_bynder/models.py:185-187 | a successful file update records the fingerprint of `original`: its file name and the record's size |
| Documents.DocumentUpdateFileSettlesFile | src/wagtail_bynder/models.py:175-187 | after a successful file update the file is the download of `original`, flagged as changed, and no longer counts as changed |
| Documents.DocumentUpdateFileFailureKeepsState | src/wagtail_bynder/models.py:175-180 | a failed file update changes nothing and fails with a missing original or a file that was too large |
| Documents.DocumentFileHasChanged | src/wagtail_bynder/models.py:166-173 | fails, with the missing-original error for that document, iff the record has no `original`; otherwise the file counts as unchanged iff the stored file name is the basename of `original` and the stored size equals the record's |
| Documents.DocumentApply | src/wagtail_bynder/models.py:153-164 | keeps the `bynder_id`, and leaves `bynder_last_modified` at the record's `dateModified` even when the download then fails, because the metadata is mirrored first; the outcome in full is `Documents.DocumentApplyOutcome` and `Documents.DocumentApplyDownloadsWhen` |
| Documents.DocumentApplyOutcome | src/wagtail_bynder/models.py:153-164 | a successful update leaves the document up to date, with a file that no longer counts as changed. When `update_file` was due (forced, no file, or changed), the file is the fresh download and `_file_changed` is set. Otherwise only the record is mirrored |
| Documents.DocumentApplyDownloadsWhen | src/wagtail_bynder/models.py:163-164 | `update_file` runs iff forced, no file yet, or the file has changed (judged on the stored fingerprint, which mirroring leaves alone); otherwise the update only mirrors the record |
| Documents.DocumentApplyFailureKeepsFile | src/wagtail_bynder/models.py:162-164 | a failed update has mirrored the metadata and kept the old file |
| Documents.DocumentApplySettles | src/wagtail_bynder/models.py:153-164 | applying the same record again, unforced, succeeds and changes nothing |
| Documents.DocumentApplyMirrors | src/wagtail_bynder/models.py:127-134 | whether it succeeds or not, the update leaves metadata that mirroring the record again would not change |
| Documents.SyncedDocument.AssetFileHasChanged | src/wagtail_bynder/models.py:166-173 | fails iff `original` is missing, and otherwise is true iff the file name or size differs or no size is stored |
| Documents.SyncedDocument.UpdateFile | src/wagtail_bynder/models.py:175-187 | the document's fields change exactly as the file-update function says |
| Documents.SyncedDocument.UpdateFromAssetData | src/wagtail_bynder/models.py:153-164 | the document's fields change exactly as the document update function says |
| Videos.LastNamedAt | src/wagtail_bynder/models.py:592 | the URL kept for a derivative name is the last preview URL with that name, and there is none iff no URL has it |
| Videos.BuildDerivatives | src/wagtail_bynder/models.py:592 | building the derivative map fails iff some URL has no slash, with the error naming the first such URL; otherwise its keys are distinct |
| Videos.DerivativeLookup | src/wagtail_bynder/models.py:592-606 | looking a name up in the derivative map gives the last preview URL with that name |
| Videos.VideoApply | src/wagtail_bynder/models.py:572-624 | keeps the `bynder_id`; a successful update stores the record's `dateModified`, and a failed one keeps the old timestamp, because the common metadata is mirrored last; the outcome in full is `Videos.VideoApplyOutcome` and `Videos.VideoApplyFailure` |
| Videos.VideoApplyOutcome | src/wagtail_bynder/models.py:572-624 | a successful update points at the last primary and fallback derivative URLs (no fallback when none is named) and at the poster thumbnail, records the primary's file name, the size and the dimensions, and leaves the video up to date |
| Videos.VideoApplyFailure | src/wagtail_bynder/models.py:592-618 | the update fails iff a preview URL has no slash, the primary derivative is missing or the poster thumbnail is missing, and a failure leaves every common field but the source filename as it was. A slash-less URL raises at the first such URL, and a missing primary raises BynderAssetDataError with the derivative names found; both assign nothing. A missing poster raises BynderAssetDataError naming the video and listing the thumbnail names, after the primary URL, its filename and the fallback were assigned |
| Videos.VideoApplySettles | src/wagtail_bynder/models.py:572-624 | applying the same record again succeeds and changes nothing |
| Videos.SyncedVideo.SetSources | src/wagtail_bynder/models.py:594-606 | sets the primary URL, the source file name taken from it and the fallback URL, and changes nothing else |
| Videos.SyncedVideo.SetPoster | src/wagtail_bynder/models.py:610-622 | sets the poster URL and the original size and dimensions, and changes nothing else |
| Videos.SyncedVideo.UpdateFromAssetData | src/wagtail_bynder/models.py:572-624 | the video's fields change exactly as the video update function says, including on failure |
| Rows.ApplyRecord | src/wagtail_bynder/management/commands/base.py:102 | updating an object never changes its model |
| Rows.ApplyRecordOutcome | src/wagtail_bynder/models.py:131 | a successful update of any model stores the record's `dateModified`, keeps the id and leaves the object up to date |
| Rows.ApplyRecordKeepsId | src/wagtail_bynder/models.py:114-134 | no update, successful or not, changes an object's `bynder_id` |
| Rows.ApplyRecordSettles | src/wagtail_bynder/models.py:103-112 | after a successful update, updating again from the same record succeeds and changes nothing but an image's focal-changed flag |
| Rows.UpdateInstance | src/wagtail_bynder/management/commands/base.py:102 | calling the model's own `update_from_asset_data` gives exactly the update function's result |
| Store.Database.SaveExisting | src/wagtail_bynder/management/commands/base.py:103 | saving an existing object replaces its row and puts its file in storage |
| Store.Database.Insert | src/wagtail_bynder/views/mixins.py:24-26 | saving a new object writes its file first, then fails with IntegrityError iff the id is taken or another unique column clashes, leaving the table unchanged, and otherwise adds the row |
| Store.Database.DeleteFile | src/wagtail_bynder/views/mixins.py:37 | deleting a file no row refers to removes it from storage and leaves the table alone |
| Batching.QueryFor | src/wagtail_bynder/management/commands/base.py:52-59 | every page query asks for records modified since the window start, newest first, 200 at a time, filtered by type iff a type is set |
| Batching.PagesFrom | src/wagtail_bynder/management/commands/base.py:45-65 | the records of the first page, when it is before the bound, come first and in order; that the bound does not matter is `Batching.PagesFromAnyBound`, and the request sequence is `SyncCommand.BynderSyncCommand.GetAssets` |
| Batching.PagesFromAnyBound | src/wagtail_bynder/management/commands/base.py:50-65 | once a page is empty, later pages do not change the records the loop yields |
| Batching.Push | src/wagtail_bynder/management/commands/base.py:28-35 | taking in a record keeps the batches already handed over and adds at most one; the open batch is empty only right after a hand-over, and stays below 200 ids; the rest is `Batching.PushShaped`, `Batching.PushFilesNewRecord` and `Batching.PushKeepsFiled` |
| Batching.Accumulate | src/wagtail_bynder/management/commands/base.py:28-35 | after any stream the open batch holds fewer than 200 ids, and a non-empty stream has handed over a batch or left the open one non-empty; the rest is `Batching.AccumulateShaped` and `Batching.AccumulateKeepsLatest` |
| Batching.Batches | src/wagtail_bynder/management/commands/base.py:28-39 | a stream hands some batch to the update iff it is non-empty; sizes and contents are `Batching.BatchesBounded` and `Batching.BatchesKeepLatest` |
| Batching.PushShaped | src/wagtail_bynder/management/commands/base.py:28-35 | taking in a record keeps every flushed batch at exactly 200 ids, each filed under its own id, and the open batch below 200 |
| Batching.PushFilesNewRecord | src/wagtail_bynder/management/commands/base.py:30 | a record taken in is filed under its id |
| Batching.PushKeepsFiled | src/wagtail_bynder/management/commands/base.py:30-35 | taking in a record with a different id keeps what is filed for every other id |
| Batching.AccumulateShaped | src/wagtail_bynder/management/commands/base.py:28-35 | batching any stream of records keeps the batch shape |
| Batching.AccumulateKeepsLatest | src/wagtail_bynder/management/commands/base.py:28-35 | after any stream the last record seen for an id is what is filed for it |
| Batching.BatchesBounded | src/wagtail_bynder/management/commands/base.py:28-39 | every batch handed to the update holds between 1 and 200 records, each under its own id |
| Batching.BatchesKeepLatest | src/wagtail_bynder/management/commands/base.py:28-39 | every record's id reaches a batch, holding the last record seen for it |
| Batching.AccumulateGrows | src/wagtail_bynder/management/commands/base.py:28-35 | batches flushed early in the stream remain flushed, in order |
| Batching.AccumulateSnoc | src/wagtail_bynder/management/commands/base.py:28-35 | batching one more record files it under its id, and flushes the batch and starts a fresh one when it reaches 200 ids |
| Refresh.MakeUpdater | src/wagtail_bynder/management/commands/base.py:102 | the command's update is the model's `update_from_asset_data` without `force_download`, and it never changes an object's `bynder_id` |
| Refresh.DataFor | src/wagtail_bynder/management/commands/update_stale_images.py:20-23 | has no contract of its own: the record handed to the update is the one `media_info` returns for the listed id when the command re-fetches (the stale-images command), and the listed record otherwise; `Refresh.RefreshSettles` states what a re-fetched record must satisfy for a batch to settle |
| Refresh.Updated | src/wagtail_bynder/management/commands/base.py:89-103 | with an update that keeps ids, updating an object never changes its `bynder_id`; with the model's own update it is `Rows.ApplyRecord` on the record `Refresh.DataFor` picks |
| Refresh.OutdatedIds | src/wagtail_bynder/management/commands/base.py:67-78 | for a non-empty batch (every batch `handle` hands over, base.py:32 and 38), the stale query selects only stored objects whose id is in the batch |
| Refresh.OutdatedIsNotUpToDate | src/wagtail_bynder/management/commands/base.py:67-78 | an object in the batch is selected iff its timestamp is set and it is not up to date; an empty or equal timestamp is never selected |
| Refresh.Refreshed | src/wagtail_bynder/management/commands/base.py:80-87 | updating a batch keeps the table's ids |
| Refresh.RefreshAll | src/wagtail_bynder/management/commands/base.py:24-39 | a run over all batches keeps the table's ids |
| Refresh.SettledRefreshIsIdentity | src/wagtail_bynder/management/commands/base.py:80-87 | against a table with nothing stale a batch selects nothing, succeeds and changes nothing |
| Refresh.RefreshSettles | src/wagtail_bynder/management/commands/base.py:80-87 | after a successful batch no object is stale against it, provided a re-fetched record is never older than the listed one |
| Refresh.RefreshKeepsSettled | src/wagtail_bynder/management/commands/base.py:80-87 | a later batch does not make objects stale against an earlier one |
| Refresh.RefreshedKeepsIds | src/wagtail_bynder/management/commands/base.py:80-87 | updating a batch never changes an object's `bynder_id` |
| Refresh.RunSettles | src/wagtail_bynder/management/commands/base.py:24-39 | after a successful run no object is stale against any record it saw |
| Refresh.SettledRunIsIdentity | src/wagtail_bynder/management/commands/base.py:24-39 | a run against a table with nothing stale succeeds and changes nothing |
| Refresh.SecondRunIsNoOp | src/wagtail_bynder/management/commands/base.py:24-39 | running the command again over the same records succeeds and changes nothing |
| Refresh.RunSnoc | src/wagtail_bynder/management/commands/base.py:33-39 | a run over one more batch is the run so far followed by that batch's update |
| Refresh.PartlyRefreshedStep | src/wagtail_bynder/management/commands/base.py:85-87 | updating one more selected object changes only that object's row |
| Refresh.PartlyRefreshedNone | src/wagtail_bynder/management/commands/base.py:85-87 | before any selected object is updated the table is as it was |
| Refresh.PartlyRefreshedAll | src/wagtail_bynder/management/commands/base.py:85-87 | once every selected object is updated the table is the batch's result |
| Refresh.StoppedAtFails | src/wagtail_bynder/management/commands/base.py:85-87 | a batch that stopped at a failing object does not succeed, and the table it leaves holds that object unsaved |
| Refresh.RunStoppedFails | src/wagtail_bynder/management/commands/base.py:24-39 | a run that stopped inside its last batch does not succeed and keeps the set of ids |
| SyncCommand.MinDateModified | src/wagtail_bynder/management/commands/base.py:41-43 | the window starts exactly one day (86400 seconds) before now |
| SyncCommand.BynderSyncCommand.GetAssets | src/wagtail_bynder/management/commands/base.py:45-65 | requests pages 1, 2, … with the page query until the first empty page, and yields the records of the earlier, non-empty pages in order |
| SyncCommand.BynderSyncCommand.GetOutdatedObjects | src/wagtail_bynder/management/commands/base.py:67-78 | for a non-empty batch, the loop builds exactly the stale query's selection |
| SyncCommand.BynderSyncCommand.UpdateObject | src/wagtail_bynder/management/commands/base.py:89-103 | updates the object from its record (re-fetched in full first when configured, as the stale-images command does) and saves it; on failure nothing is saved |
| SyncCommand.BynderSyncCommand.UpdateNextObject | src/wagtail_bynder/management/commands/base.py:85-87 | one turn of the loop updates and saves the chosen object: on success the table is the partial result with that object done, and on failure the table is unchanged |
| SyncCommand.BynderSyncCommand.UpdateEach | src/wagtail_bynder/management/commands/base.py:85-87 | for a non-empty batch, the loop, in any order, succeeds iff every selected object's update succeeds, and then every selected object is updated. On failure it raises the error of one selected object's update, and every object updated before it stays saved. That object and the ones not reached are left as they were |
| SyncCommand.BynderSyncCommand.UpdateOutdatedObjects | src/wagtail_bynder/management/commands/base.py:80-87 | for a non-empty batch, succeeds iff every selected object's update succeeds, and then leaves the table as the batch function says. On failure the objects updated before the failing one stay saved, and the rest are as they were |
| SyncCommand.BynderSyncCommand.Flush | src/wagtail_bynder/management/commands/base.py:33-39 | handing one more non-empty batch over extends the run: it succeeds iff the run with that batch succeeds, and then the table is that run's result; on failure the run stopped inside this batch |
| SyncCommand.BynderSyncCommand.Handle | src/wagtail_bynder/management/commands/base.py:24-39 | the batches handed over are a prefix of the batches of the listed records. On success they are all of them and the table is the run's result. On failure every earlier batch went through, and the last batch stopped at its failing object with the objects done before it saved |
| SyncCommand.BynderSyncCommand.AddRecord | src/wagtail_bynder/management/commands/base.py:29-36 | one turn of the loop files the record under its id and hands the batch over when it reaches 200 ids: on success the batches and open batch are those of the records so far and the table is their run; on failure the run stopped inside the batch just handed over |
| SyncCommand.BynderSyncCommand.HandleRecords | src/wagtail_bynder/management/commands/base.py:27-39 | records are gathered into an id-keyed batch that is handed over whenever it reaches 200 ids, with the remainder handed over at the end; on success the batches handed over are exactly those of the listed records and the table is their successive refresh; on failure every earlier batch went through and the last one handed over stopped at its failing object, with the objects done before it saved; ids are never added or removed |
| Resolver.NewObject | src/wagtail_bynder/views/mixins.py:21 | a new object carries the asset id, no timestamp and no file |
| Resolver.CompetingCreate | src/wagtail_bynder/views/mixins.py:24-25 | a concurrent request that creates the same asset between this request's build and save inserts its object under the asset id iff the id is still free, and its file goes to storage; otherwise the table and the storage are unchanged |
| Resolver.CleanupAsWritten | src/wagtail_bynder/views/mixins.py:34-40 | as written, the cleanup raises an AttributeError that escapes iff the new object is a video, or it has a file and the existing object is a video; a file it deletes is the new object's, and differs from the existing object's |
| Resolver.RecoverAsWritten | src/wagtail_bynder/views/mixins.py:34-40 | as written, the recovery returns the existing object when it does not raise, and raises under exactly the condition of `Resolver.CleanupAsWritten` |
| Resolver.VideoRaceRaisesAsWritten | src/wagtail_bynder/views/mixins.py:34-40 | as written, losing the creation race on a video raises AttributeError for every video, instead of returning the existing object |
| Resolver.OrphanedFile | src/wagtail_bynder/views/mixins.py:35-39 | the new file is discarded iff both objects have a file and the files differ |
| Resolver.OrphanedFileAgreesOnFileModels | src/wagtail_bynder/views/mixins.py:34-40 | for images and documents the corrected cleanup does exactly what the code does, and the existing object is returned |
| Resolver.SaveNewObject | src/wagtail_bynder/views/mixins.py:24-41 | a clean save inserts the object. When the id is already taken it returns the existing row, changes no row and leaves no orphaned file (except when the existing row has no file). Any other IntegrityError is raised again. |
| Resolver.CreateObject | src/wagtail_bynder/views/mixins.py:19-42 | an update error leaves the table untouched. A clean save returns the new object. When the id is already taken (even by a concurrent request), it returns the existing row, changes no row and leaves no orphaned file, except when the existing row has no file. Any other IntegrityError is raised again. |
| Resolver.UpdateObject | src/wagtail_bynder/views/mixins.py:44-50 | an up-to-date object is returned untouched; otherwise it is updated and saved, and after a successful update it is up to date |
| Resolver.RedirectTarget | src/wagtail_bynder/views/mixins.py:59-73 | an object is redirected iff its `bynder_id` is non-empty |
| Resolver.RedirectCarriesAssetId | src/wagtail_bynder/views/mixins.py:61-64 | the redirect is an https URL on the Bynder domain whose `mediaId` parameter, at its end, is the asset id |

## Left out

- Willow's image conversion is a parameter: `get_image_info`, `Filter.run`, the temporary file, and the converted file's name and content type. The proofs assume only that the conversion is a function of the downloaded file.
- HTTP, the Bynder SDK, Django settings lookup, `timezone.now()`, `get_default_collection` and `mimetypes.guess_type` are parameters. The 20-second request timeout is not modelled.
- The ORM is not modelled beyond a map from `bynder_id` to a row: `save()` internals, primary keys, `_set_image_file_metadata`, renditions and their deletion.
- Store.Database.SaveExisting: puts the object's current file in storage on every save, instead of only when a new file was assigned; old files are never removed (Django does not remove them either).
- Focal.ComputeFocalArea: uses exact integer arithmetic (`x * height / original_height`, `2 * width / 5`) for Python's floating-point `math.floor(x / scale)` and `math.floor(width * 0.4)`, which can differ in the last unit on large values.
- Focal.FocalCentreXInside: assumes the stored image keeps at least the original's width-to-height ratio. The source scales x by the height ratio only, so the centre can fall outside the width when conversion changes the aspect.
- SyncCommand.BynderSyncCommand.GetAssets: requires a page number known to be empty, so that the loop terminates; the lazy generator becomes an eager list that `Handle` consumes.
- SyncCommand.BynderSyncCommand.Handle: the batch loop stops at the first failing update, as the uncaught exception does; the stdout lines of `update_object` are not modelled.
- Exception messages are modelled by their parameters (key, setting, asset id, available names), not by their text.
- A missing required key in a record (`dateModified`, `fileSize`, `width`, `height`, `thumbnails`, `videoPreviewURLs`, `id`) raises KeyError in the source. The record datatype makes these fields present, so that error is not modelled.
- Integer fields are unbounded; database column widths are not modelled.
- The comparison of focal points (`get_focal_point() != current`) compares the stored x, y, width and height together, not Wagtail's `Rect` object.
- Resolver.CreateObject: the name storage gives the new file (`storedName`) and the concurrent request's object are parameters. The race is modelled as one insert just before this request's save.
- The `charset` of the uploaded file is not modelled.
- A fallback video URL of None saved into the non-null `fallback_source_url` column is not modelled as a database error.
- The transient flags `_file_changed` and `_focal_point_changed` (models.py:183, 258, 267) are plain instance attributes in the source, not columns. The model keeps them in the state value that the table stores, so a stored row carries the flags of its last update. In the source, an object loaded from the database reads them as False through `getattr(..., False)`.
- `dateModified` is an ISO 8601 string that the source parses with `datetime.fromisoformat` (base.py:93, models.py:111) or hands to the ORM. The model takes it as an integer timestamp, so parsing, time zones and malformed dates are not modelled.
- Images.ImageUpdateFile: the image conversion (`process_downloaded_file`) is a total function parameter, so a conversion that raises, such as Willow failing on a corrupt file, is not modelled.
- A record's `thumbnails` is an association list. A decoded JSON object cannot repeat a key, but the model does not require distinct keys. For a repeated key, `Dicts.Get` finds the first entry, where JSON decoding keeps the last.
- Refresh.OutdatedIds: selects nothing for an empty batch, where `filter(Q())` on an empty `Q()` (base.py:73-78) selects every object, and `update_outdated_objects` would then call `update_object(obj, None)` and raise TypeError. `handle` never hands over an empty batch (base.py:32 and 38), so `GetOutdatedObjects`, `UpdateEach`, `UpdateOutdatedObjects` and `Flush` require a non-empty batch, and the loops of `handle` are proved to meet that requirement.
- `setup` of `RedirectToBynderMixin` (URL keyword renaming) and the non-redirect fall-through to Wagtail's own views are not modelled.

## Findings

| source | as written | input that shows it | evidently intended | confidence | as-written member | corrected member |
|---|---|---|---|---|---|---|
| src/wagtail_bynder/views/mixins.py:35-39 | the race recovery reads `obj.file.path` and catches only ValueError and FileNotFoundError | a video chooser request that loses the race to insert the same `bynder_id`: the video model has no `file` field, so AttributeError escapes | return the existing video, because a model without a file has no orphaned file to delete | not executed | Resolver.RecoverAsWritten, Resolver.VideoRaceRaisesAsWritten | Resolver.CreateObject |
