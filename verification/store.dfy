/** One model's table and the media storage its files are written to. */
module Store {
  import opened Wrappers
  import opened AssetData
  import opened AssetCommon
  import opened Rows

  /** The name of the file a stored object holds, if its model has one and
      it is set. */
  function RowFileName(r: Row): (name: Option<string>)
    ensures r.VideoRow? ==> name.None?
  {
    match r
    case ImageRow(s) => if s.file.Some? then Some(s.file.value.name) else None
    case DocumentRow(s) => if s.file.Some? then Some(s.file.value.name) else None
    case VideoRow(_) => None
  }

  function RowFiles(r: Row): set<string> {
    if RowFileName(r).Some? then {RowFileName(r).value} else {}
  }

  /** The object after its file has been written to storage under `name`
      (storage may pick a different name from the one asked for). */
  function Stored(r: Row, name: string): (t: Row)
    ensures RowCommon(t) == RowCommon(r) && SameKind(t, r)
    ensures RowFileName(r).Some? ==> RowFileName(t) == Some(name)
    ensures RowFileName(r).None? || RowFileName(r) == Some(name) ==> t == r
  {
    match r
    case ImageRow(s) => if s.file.Some? then ImageRow(s.(file := Some(s.file.value.(name := name)))) else r
    case DocumentRow(s) => if s.file.Some? then DocumentRow(s.(file := Some(s.file.value.(name := name)))) else r
    case VideoRow(_) => r
  }

  class Database {
    /** The table, by `bynder_id` (a unique column). */
    var rows: map<string, Row>
    /** The names of the files in media storage. */
    var media: set<string>

    /** Every object sits under its own `bynder_id`, and its file is in
        storage. */
    predicate Valid()
      reads this
    {
      forall id :: id in rows ==> RowCommon(rows[id]).bynderId == Some(id) && RowFiles(rows[id]) <= media
    }

    constructor()
      ensures rows == map[] && media == {} && Valid()
    {
      rows := map[];
      media := {};
    }

    /** `save()` of an object already in the table: an UPDATE, writing a
        newly assigned file to storage. */
    method SaveExisting(id: string, r: Row)
      requires Valid() && id in rows && RowCommon(r).bynderId == Some(id)
      modifies this
      ensures Valid()
      ensures rows == old(rows)[id := r]
      ensures media == old(media) + RowFiles(r)
    {
      rows := rows[id := r];
      media := media + RowFiles(r);
    }

    /** `save()` of a new object: its file is written to storage first (as
        `storedName`), then the INSERT raises IntegrityError when the
        `bynder_id` is taken or `otherConflict` (another unique column)
        clashes. */
    method Insert(r: Row, storedName: string, otherConflict: bool) returns (outcome: Outcome<Error>, saved: Row)
      requires Valid() && RowCommon(r).bynderId.Some?
      modifies this
      ensures Valid()
      ensures saved == Stored(r, storedName)
      ensures media == old(media) + RowFiles(saved)
      ensures var id := RowCommon(r).bynderId.value;
        && (outcome.Fail? <==> id in old(rows) || otherConflict)
        && (outcome.Fail? ==> outcome.error == IntegrityError && rows == old(rows))
        && (outcome.Pass? ==> rows == old(rows)[id := saved])
    {
      saved := Stored(r, storedName);
      media := media + RowFiles(saved);
      var id := RowCommon(r).bynderId.value;
      if id in rows || otherConflict {
        return Fail(IntegrityError), saved;
      }
      rows := rows[id := saved];
      return Pass, saved;
    }

    /** `file.delete()`: removes the file from storage (a missing file is
        not an error here). Django's `FieldFile.delete` saves its instance
        afterwards by default; for the unsaved duplicate being cleaned up,
        that save runs the `_set_*_file_metadata` step (the file-changed
        flag is set, models.py:230-232 and 462-464), which raises
        ValueError on the now emptied file, and the handler at
        mixins.py:38 swallows it. So the table is untouched and only the
        file goes, which is what is modelled here. */
    method DeleteFile(name: string)
      requires Valid() && forall id :: id in rows ==> RowFileName(rows[id]) != Some(name)
      modifies this
      ensures Valid()
      ensures rows == old(rows) && media == old(media) - {name}
    {
      media := media - {name};
    }
  }
}
