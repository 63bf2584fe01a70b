/**
 * The per-user file library. The object store is a dictionary from record id to record;
 * every operation first normalizes the owner key and then only ever reads, lists or
 * deletes records whose stored owner key is that normal form.
 */
module LibraryDb {
  import opened Wrappers
  import opened Text
  import opened Collections

  /** The browser `File` handed to `addFile`; its bytes stay abstract. */
  datatype Upload = Upload(name: string, mimeType: string, size: int, blob: seq<bv8>)

  /** A stored record: the file with its owner and upload time. */
  datatype LibraryFile = LibraryFile(
    id: string, ownerKey: string, name: string, mimeType: string, size: int, uploadedAt: int, blob: seq<bv8>)

  /** A record without its bytes, as the listing returns it. */
  datatype LibraryRow = LibraryRow(
    id: string, ownerKey: string, name: string, mimeType: string, size: int, uploadedAt: int)

  function RowOf(f: LibraryFile): (r: LibraryRow)
    ensures r.id == f.id && r.ownerKey == f.ownerKey && r.uploadedAt == f.uploadedAt
    ensures r.name == f.name && r.mimeType == f.mimeType && r.size == f.size
  {
    LibraryRow(f.id, f.ownerKey, f.name, f.mimeType, f.size, f.uploadedAt)
  }

  function FileId(f: LibraryFile): string {
    f.id
  }

  function UploadedAt(r: LibraryRow): int {
    r.uploadedAt
  }

  const DefaultType := "application/octet-stream"

  /** `makeId`: the owner key, a colon, the time and the random hex digits. */
  function MakeId(ownerKey: string, now: int, randomHex: string): (id: string)
    ensures ownerKey + ":" <= id
  {
    ownerKey + ":" + IntToString(now) + "_" + randomHex
  }

  /** The record `addFile` stores for a normalized owner key. */
  function NewRecord(file: Upload, ownerKey: string, now: int, randomHex: string): (rec: LibraryFile)
    ensures rec.ownerKey == ownerKey && ownerKey + ":" <= rec.id
    ensures rec.name == file.name && rec.size == file.size && rec.uploadedAt == now && rec.blob == file.blob
    ensures file.mimeType != "" ==> rec.mimeType == file.mimeType
    ensures file.mimeType == "" ==> rec.mimeType == DefaultType
  {
    LibraryFile(MakeId(ownerKey, now, randomHex), ownerKey, file.name,
                if file.mimeType != "" then file.mimeType else DefaultType, file.size, now, file.blob)
  }

  /** `getFile`: the record under that id, only for a non-empty owner key that owns it. */
  function FileFor(files: map<string, LibraryFile>, id: string, ownerKey: string): (r: Option<LibraryFile>)
    ensures r.Some? <==> Normalize(ownerKey) != "" && id in files && files[id].ownerKey == Normalize(ownerKey)
    ensures r.Some? ==> r.value == files[id]
  {
    var ok := Normalize(ownerKey);
    if ok == "" then None
    else if id !in files then None
    else if files[id].ownerKey != ok then None
    else Some(files[id])
  }

  /** A record just added is found again by its owner, under any spelling of the key with
      the same normal form, and by nobody else. */
  lemma GetAfterAdd(files: map<string, LibraryFile>, file: Upload, ownerKey: string, other: string, now: int, randomHex: string)
    requires Normalize(ownerKey) != ""
    ensures var rec := NewRecord(file, Normalize(ownerKey), now, randomHex);
            FileFor(files[rec.id := rec], rec.id, other) ==
              if Normalize(other) == Normalize(ownerKey) then Some(rec) else None
  {
  }

  predicate Owned(f: LibraryFile, ownerKey: string) {
    f.ownerKey == ownerKey
  }

  function OwnedBy(ownerKey: string): LibraryFile -> bool {
    f => Owned(f, ownerKey)
  }

  /** The listing of some records for a key: the rows of those it owns, newest first. */
  function OwnedRows(all: seq<LibraryFile>, ownerKey: string): (rows: seq<LibraryRow>)
    ensures SortedDesc(rows, UploadedAt)
    ensures forall row :: row in rows <==>
              exists k :: 0 <= k < |all| && Owned(all[k], ownerKey) && row == RowOf(all[k])
    ensures DistinctBy(all, FileId) ==> Distinct(rows)
  {
    FilterMapSortMembers(all, OwnedBy(ownerKey), RowOf, UploadedAt);
    var owned := Filter(all, OwnedBy(ownerKey));
    var mapped := MapSeq(owned, RowOf);
    var rows := SortDesc(mapped, UploadedAt);
    assert DistinctBy(all, FileId) ==> Distinct(rows) by {
      if DistinctBy(all, FileId) {
        FilterDistinctBy(all, OwnedBy(ownerKey), FileId);
        assert Distinct(mapped) by {
          forall i, j | 0 <= i < j < |mapped| ensures mapped[i] != mapped[j] {
            assert mapped[i].id == FileId(owned[i]) && mapped[j].id == FileId(owned[j]);
          }
        }
        DistinctOfMultiset(mapped, rows);
      }
    }
    rows
  }

  /** The store; ids are the records' own ids, as the store's key path makes them. */
  class Library {
    var files: map<string, LibraryFile>

    predicate Valid()
      reads this
    {
      forall id :: id in files ==> files[id].id == id
    }

    constructor()
      ensures files == map[] && Valid()
    {
      files := map[];
    }

    /** `addFile`: fails with "Missing ownerKey" and stores nothing when the key is blank;
        otherwise stores the new record under its id and returns its row. */
    method AddFile(file: Upload, ownerKey: string, now: int, randomHex: string) returns (r: Result<LibraryRow>)
      requires Valid()
      modifies this
      ensures Valid()
      ensures Normalize(ownerKey) == "" ==> r == Err("Missing ownerKey") && files == old(files)
      ensures Normalize(ownerKey) != "" ==>
                (var rec := NewRecord(file, Normalize(ownerKey), now, randomHex);
                 r == Ok(RowOf(rec)) && files == old(files)[rec.id := rec])
    {
      var ok := Normalize(ownerKey);
      if ok == "" {
        return Err("Missing ownerKey");
      }
      var rec := NewRecord(file, ok, now, randomHex);
      files := files[rec.id := rec];
      return Ok(RowOf(rec));
    }

    method GetFile(id: string, ownerKey: string) returns (r: Option<LibraryFile>)
      ensures r == FileFor(files, id, ownerKey)
    {
      var ok := Normalize(ownerKey);
      if ok == "" {
        return None;
      }
      if id !in files {
        return None;
      }
      var rec := files[id];
      if rec.ownerKey != ok {
        return None;
      }
      return Some(rec);
    }

    /** `listFiles`: the rows of exactly the records the normalized key owns, newest
        first; nothing for a blank key. */
    method ListFiles(ownerKey: string) returns (rows: seq<LibraryRow>)
      requires Valid()
      ensures Normalize(ownerKey) == "" ==> rows == []
      ensures Distinct(rows)
      ensures forall row :: row in rows <==>
                (Normalize(ownerKey) != ""
                 && exists id :: id in files && Owned(files[id], Normalize(ownerKey)) && row == RowOf(files[id]))
      ensures SortedDesc(rows, UploadedAt)
    {
      var ok := Normalize(ownerKey);
      if ok == "" {
        return [];
      }
      var ids, all := ValuesOf(files);
      assert DistinctBy(all, FileId) by {
        forall i, j | 0 <= i < j < |all| ensures FileId(all[i]) != FileId(all[j]) {
          assert all[i].id == ids[i] && all[j].id == ids[j];
        }
      }
      rows := OwnedRows(all, ok);
      forall row
        ensures row in rows <==>
                  exists id :: id in files && Owned(files[id], ok) && row == RowOf(files[id])
      {
        if row in rows {
          var k :| 0 <= k < |all| && Owned(all[k], ok) && row == RowOf(all[k]);
          assert files[ids[k]] == all[k];
        }
        if id :| id in files && Owned(files[id], ok) && row == RowOf(files[id]) {
          var k :| 0 <= k < |ids| && ids[k] == id;
          assert all[k] == files[id];
        }
      }
    }

    /** `removeFile`: deletes the record only when that key could get it. */
    method RemoveFile(id: string, ownerKey: string) returns (ok: bool)
      requires Valid()
      modifies this
      ensures Valid()
      ensures ok <==> FileFor(old(files), id, ownerKey).Some?
      ensures ok ==> files == old(files) - {id}
      ensures !ok ==> files == old(files)
    {
      var rec := GetFile(id, ownerKey);
      if rec.None? {
        return false;
      }
      files := files - {id};
      return true;
    }
  }
}
