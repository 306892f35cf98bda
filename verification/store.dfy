/** The local store of `src/lib/db.ts`: the `songs`, `albums` and `files`
    tables as maps from auto-increment ids to rows, with the helpers the
    application calls. Every helper takes the clock reading `Date.now()`
    as the parameter `now` and returns the new store instead of writing
    to IndexedDB. */
module Store {
  import opened Nullable
  import opened Newest

  type Id = nat

  /** A `songs` row without its primary key (the key is the map key). */
  datatype SongRow = SongRow(
    url: string,
    title: Option<string>,
    platform: Option<string>,
    duration: int,
    addedAt: int,
    albumId: Option<Id>,
    thumbnail: Option<string>,
    fileId: Option<Id>)

  /** What `addSong` receives: a song row without `id` and `addedAt`. */
  datatype NewSong = NewSong(
    url: string,
    title: Option<string>,
    platform: Option<string>,
    duration: int,
    albumId: Option<Id>,
    thumbnail: Option<string>,
    fileId: Option<Id>)

  datatype AlbumRow = AlbumRow(
    name: string,
    createdAt: int,
    description: Option<string>,
    thumbnail: Option<string>)

  /** A `files` row; the blob payload is represented by its size only. */
  datatype FileRow = FileRow(
    url: string,
    filename: Option<string>,
    size: Option<nat>,
    createdAt: int)

  /** `Partial<SongRow>` without the primary key: `None` leaves a field
      alone, `Some(v)` overwrites it with `v`. */
  datatype SongPatch = SongPatch(
    url: Option<string>,
    title: Option<Option<string>>,
    platform: Option<Option<string>>,
    duration: Option<int>,
    addedAt: Option<int>,
    albumId: Option<Option<Id>>,
    thumbnail: Option<Option<string>>,
    fileId: Option<Option<Id>>)

  const NoChanges := SongPatch(None, None, None, None, None, None, None, None)

  /** The three tables and their key generators. IndexedDB key generators
      start at 1 and never hand out a number twice, even after deletes. */
  datatype Db = Db(
    songs: map<Id, SongRow>,
    albums: map<Id, AlbumRow>,
    files: map<Id, FileRow>,
    nextSongId: Id,
    nextAlbumId: Id,
    nextFileId: Id)

  const Empty := Db(map[], map[], map[], 1, 1, 1)

  /** The three key generators, as (songs, albums, files). */
  function Generators(db: Db): (Id, Id, Id) {
    (db.nextSongId, db.nextAlbumId, db.nextFileId)
  }

  predicate KeysBelow<T>(m: map<Id, T>, next: Id) {
    forall k :: k in m ==> 1 <= k < next
  }

  /** Every key was handed out by its table's generator. */
  predicate Valid(db: Db) {
    && 1 <= db.nextSongId && 1 <= db.nextAlbumId && 1 <= db.nextFileId
    && KeysBelow(db.songs, db.nextSongId)
    && KeysBelow(db.albums, db.nextAlbumId)
    && KeysBelow(db.files, db.nextFileId)
  }

  lemma EmptyIsValid()
    ensures Valid(Empty)
  {
  }

  /** `(id, row)` is a row of table `m`. */
  predicate InTable<T(==)>(m: map<Id, T>, e: (Id, T)) {
    e.0 in m && m[e.0] == e.1
  }

  function AddedAt(r: SongRow): int { r.addedAt }
  function CreatedAt(r: AlbumRow): int { r.createdAt }

  /* --- albums --- */

  datatype Created = Created(db: Db, id: Id)

  /** `createAlbum(name, description?)`. */
  function CreateAlbum(db: Db, name: string, description: Option<string>, now: int): (r: Created)
    requires Valid(db)
    ensures Valid(r.db)
    ensures r.id !in db.albums && forall k :: k in db.albums ==> k < r.id
    ensures r.id == db.nextAlbumId && r.db.nextAlbumId == r.id + 1
    ensures r.db.nextSongId == db.nextSongId && r.db.nextFileId == db.nextFileId
    ensures r.db.albums == db.albums[r.id := AlbumRow(name, now, description, None)]
    ensures r.db.songs == db.songs && r.db.files == db.files
  {
    var id := db.nextAlbumId;
    Created(db.(albums := db.albums[id := AlbumRow(name, now, description, None)],
                nextAlbumId := id + 1), id)
  }

  /** `getAlbums()`: every album, newest `createdAt` first. */
  function GetAlbums(db: Db): (r: seq<(Id, AlbumRow)>)
    requires Valid(db)
    ensures NewestFirst(r, CreatedAt)
    ensures DistinctIds(r)
    ensures forall k :: 0 <= k < |r| ==> InTable(db.albums, r[k])
    ensures forall id :: id in db.albums ==> (id, db.albums[id]) in r
  {
    SortedRows(db.albums, db.nextAlbumId, CreatedAt)
  }

  /** `deleteAlbum(id)`: inside one transaction, clear `albumId` on every
      song of the album, then delete the album row. */
  function DeleteAlbum(db: Db, id: Id): (r: Db)
    requires Valid(db)
    ensures Valid(r)
    ensures r.albums == db.albums - {id}
    ensures r.songs.Keys == db.songs.Keys
    ensures forall k :: k in r.songs ==> r.songs[k].albumId != Some(id)
    ensures forall k :: k in db.songs && db.songs[k].albumId != Some(id) ==> r.songs[k] == db.songs[k]
    ensures forall k :: k in db.songs && db.songs[k].albumId == Some(id) ==>
              r.songs[k] == db.songs[k].(albumId := None)
    ensures r.files == db.files
    ensures Generators(r) == Generators(db)
  {
    var songs := map k | k in db.songs ::
      if db.songs[k].albumId == Some(id) then db.songs[k].(albumId := None) else db.songs[k];
    db.(songs := songs, albums := db.albums - {id})
  }

  /* --- songs --- */

  function FromNew(s: NewSong, addedAt: int): SongRow {
    SongRow(s.url, s.title, s.platform, s.duration, addedAt, s.albumId, s.thumbnail, s.fileId)
  }

  /** `addSong(song)`. */
  function AddSong(db: Db, song: NewSong, now: int): (r: Created)
    requires Valid(db)
    ensures Valid(r.db)
    ensures r.id !in db.songs && forall k :: k in db.songs ==> k < r.id
    ensures r.id == db.nextSongId && r.db.nextSongId == r.id + 1
    ensures r.db.nextAlbumId == db.nextAlbumId && r.db.nextFileId == db.nextFileId
    ensures r.id in r.db.songs && r.db.songs == db.songs[r.id := r.db.songs[r.id]]
    ensures var row := r.db.songs[r.id];
      && row.url == song.url && row.title == song.title && row.platform == song.platform
      && row.duration == song.duration && row.albumId == song.albumId
      && row.thumbnail == song.thumbnail && row.fileId == song.fileId
      && row.addedAt == now
    ensures r.db.albums == db.albums && r.db.files == db.files
  {
    var id := db.nextSongId;
    Created(db.(songs := db.songs[id := FromNew(song, now)], nextSongId := id + 1), id)
  }

  /** Merging a patch into a row, as `Table.update` does. */
  function ApplyPatch(row: SongRow, p: SongPatch): (r: SongRow)
    ensures r.url == p.url.OrElse(row.url)
    ensures r.title == p.title.OrElse(row.title)
    ensures r.platform == p.platform.OrElse(row.platform)
    ensures r.duration == p.duration.OrElse(row.duration)
    ensures r.addedAt == p.addedAt.OrElse(row.addedAt)
    ensures r.albumId == p.albumId.OrElse(row.albumId)
    ensures r.thumbnail == p.thumbnail.OrElse(row.thumbnail)
    ensures r.fileId == p.fileId.OrElse(row.fileId)
  {
    SongRow(
      p.url.OrElse(row.url),
      p.title.OrElse(row.title),
      p.platform.OrElse(row.platform),
      p.duration.OrElse(row.duration),
      p.addedAt.OrElse(row.addedAt),
      p.albumId.OrElse(row.albumId),
      p.thumbnail.OrElse(row.thumbnail),
      p.fileId.OrElse(row.fileId))
  }

  /** Patching twice with the same patch is patching once. */
  lemma PatchIdempotent(row: SongRow, p: SongPatch)
    ensures ApplyPatch(ApplyPatch(row, p), p) == ApplyPatch(row, p)
  {
  }

  lemma EmptyPatchKeepsRow(row: SongRow)
    ensures ApplyPatch(row, NoChanges) == row
  {
  }

  /** `updateSong(id, patch)`. `Table.update` resolves to 0 for a missing
      key and the helper ignores that count, so a missing id is a no-op. */
  function UpdateSong(db: Db, id: Id, patch: SongPatch): (r: Db)
    requires Valid(db)
    ensures Valid(r)
    ensures r.songs.Keys == db.songs.Keys
    ensures id in db.songs ==> r.songs[id] == ApplyPatch(db.songs[id], patch)
    ensures forall k :: k in db.songs && k != id ==> r.songs[k] == db.songs[k]
    ensures id !in db.songs ==> r == db
    ensures r.albums == db.albums && r.files == db.files
    ensures Generators(r) == Generators(db)
  {
    if id in db.songs then db.(songs := db.songs[id := ApplyPatch(db.songs[id], patch)]) else db
  }

  /** `deleteSong(id)`. */
  function DeleteSong(db: Db, id: Id): (r: Db)
    requires Valid(db)
    ensures Valid(r)
    ensures r.songs == db.songs - {id}
    ensures r.albums == db.albums && r.files == db.files
    ensures Generators(r) == Generators(db)
  {
    db.(songs := db.songs - {id})
  }

  /** `getRecentSongs(limit = 50)`: the `limit` newest songs, newest first. */
  function GetRecentSongs(db: Db, limit: nat := 50): (r: seq<(Id, SongRow)>)
    requires Valid(db)
    ensures |r| <= limit
    ensures NewestFirst(r, AddedAt)
    ensures DistinctIds(r)
    ensures forall k :: 0 <= k < |r| ==> InTable(db.songs, r[k])
    ensures forall id :: id in db.songs && (id, db.songs[id]) !in r ==>
              |r| == limit && forall k :: 0 <= k < |r| ==> Newer(r[k], (id, db.songs[id]), AddedAt)
  {
    var sorted := SortedRows(db.songs, db.nextSongId, AddedAt);
    var r := Take(sorted, limit, AddedAt);
    forall id | id in db.songs && (id, db.songs[id]) !in r
      ensures |r| == limit && forall k :: 0 <= k < |r| ==> Newer(r[k], (id, db.songs[id]), AddedAt)
    {
      TakeLeavesOutOlder(sorted, limit, AddedAt, (id, db.songs[id]));
    }
    assert DistinctIds(r) by {
      forall i, j | 0 <= i < j < |r| ensures r[i].0 != r[j].0 {
        assert r[i] == sorted[i] && r[j] == sorted[j];
      }
    }
    r
  }

  /** The rows of `s` whose album is `album`, in their original order. */
  function InAlbum(s: seq<(Id, SongRow)>, album: Id): (r: seq<(Id, SongRow)>)
    requires AscendingIds(s)
    ensures AscendingIds(r)
    ensures forall k :: 0 <= k < |r| ==> r[k] in s && r[k].1.albumId == Some(album)
    ensures forall k :: 0 <= k < |s| && s[k].1.albumId == Some(album) ==> s[k] in r
  {
    if |s| == 0 then []
    else
      var rest := InAlbum(s[1..], album);
      AfterHead(s, rest);
      if s[0].1.albumId == Some(album) then [s[0]] + rest else rest
  }

  lemma AfterHead(s: seq<(Id, SongRow)>, rest: seq<(Id, SongRow)>)
    requires |s| > 0 && AscendingIds(s)
    requires forall k :: 0 <= k < |rest| ==> rest[k] in s[1..]
    ensures forall k :: 0 <= k < |rest| ==> s[0].0 < rest[k].0
    ensures forall k :: 0 <= k < |rest| ==> rest[k] in s
    ensures forall k :: 1 <= k < |s| ==> s[k] in s[1..]
  {
    forall k | 0 <= k < |rest| ensures s[0].0 < rest[k].0 && rest[k] in s {
      var j :| 0 <= j < |s[1..]| && s[1..][j] == rest[k];
      assert s[j + 1] == rest[k];
    }
    forall k | 1 <= k < |s| ensures s[k] in s[1..] {
      assert s[1..][k - 1] == s[k];
    }
  }

  /** `getSongsByAlbum(albumId)`: exactly the songs of that album, newest
      `addedAt` first. */
  function GetSongsByAlbum(db: Db, album: Id): (r: seq<(Id, SongRow)>)
    requires Valid(db)
    ensures NewestFirst(r, AddedAt)
    ensures DistinctIds(r)
    ensures forall k :: 0 <= k < |r| ==> InTable(db.songs, r[k]) && r[k].1.albumId == Some(album)
    ensures forall id :: id in db.songs && db.songs[id].albumId == Some(album) ==> (id, db.songs[id]) in r
  {
    var all := Entries(db.songs, db.nextSongId);
    var members := InAlbum(all, album);
    var r := SortNewest(members, AddedAt);
    AlbumMembersSorted(db, album, all, members, r);
    r
  }

  lemma AlbumMembersSorted(db: Db, album: Id, all: seq<(Id, SongRow)>, members: seq<(Id, SongRow)>, r: seq<(Id, SongRow)>)
    requires Valid(db)
    requires all == Entries(db.songs, db.nextSongId)
    requires members == InAlbum(all, album)
    requires NewestFirst(r, AddedAt) && multiset(r) == multiset(members)
    ensures forall k :: 0 <= k < |r| ==> InTable(db.songs, r[k]) && r[k].1.albumId == Some(album)
    ensures forall id :: id in db.songs && db.songs[id].albumId == Some(album) ==> (id, db.songs[id]) in r
    ensures DistinctIds(r)
  {
    SortedMembersInAlbum(db, album, all, members, r);
    AlbumSongsListed(db, album, all, members, r);
    TableRowsDistinct(db.songs, r, AddedAt);
  }

  lemma SortedMembersInAlbum(db: Db, album: Id, all: seq<(Id, SongRow)>, members: seq<(Id, SongRow)>, r: seq<(Id, SongRow)>)
    requires Valid(db)
    requires all == Entries(db.songs, db.nextSongId)
    requires members == InAlbum(all, album)
    requires multiset(r) == multiset(members)
    ensures forall k :: 0 <= k < |r| ==> InTable(db.songs, r[k]) && r[k].1.albumId == Some(album)
  {
    forall k | 0 <= k < |r| ensures InTable(db.songs, r[k]) && r[k].1.albumId == Some(album) {
      assert r[k] in multiset(members);
      var j :| 0 <= j < |members| && members[j] == r[k];
      var i :| 0 <= i < |all| && all[i] == r[k];
    }
  }

  lemma AlbumSongsListed(db: Db, album: Id, all: seq<(Id, SongRow)>, members: seq<(Id, SongRow)>, r: seq<(Id, SongRow)>)
    requires Valid(db)
    requires all == Entries(db.songs, db.nextSongId)
    requires members == InAlbum(all, album)
    requires multiset(r) == multiset(members)
    ensures forall id :: id in db.songs && db.songs[id].albumId == Some(album) ==> (id, db.songs[id]) in r
  {
    forall id | id in db.songs && db.songs[id].albumId == Some(album)
      ensures (id, db.songs[id]) in r
    {
      var j :| 0 <= j < |all| && all[j] == (id, db.songs[id]);
      assert all[j] in members;
      assert (id, db.songs[id]) in multiset(members);
    }
  }

  /** Newest-first rows of one table never repeat an id. */
  lemma TableRowsDistinct<T>(m: map<Id, T>, r: seq<(Id, T)>, stamp: T -> int)
    requires NewestFirst(r, stamp)
    requires forall k :: 0 <= k < |r| ==> InTable(m, r[k])
    ensures DistinctIds(r)
  {
    forall i, j | 0 <= i < j < |r| ensures r[i].0 != r[j].0 {
      assert Newer(r[i], r[j], stamp);
    }
  }

  /* --- file blobs --- */

  /** `saveFileBlob(url, filename, blob)`; `blobSize` is `blob.size`. */
  function SaveFileBlob(db: Db, url: string, filename: Option<string>, blobSize: nat, now: int): (r: Created)
    requires Valid(db)
    ensures Valid(r.db)
    ensures r.id !in db.files && forall k :: k in db.files ==> k < r.id
    ensures r.id == db.nextFileId && r.db.nextFileId == r.id + 1
    ensures r.db.nextSongId == db.nextSongId && r.db.nextAlbumId == db.nextAlbumId
    ensures r.db.files == db.files[r.id := FileRow(url, filename, Some(blobSize), now)]
    ensures r.db.songs == db.songs && r.db.albums == db.albums
  {
    var id := db.nextFileId;
    Created(db.(files := db.files[id := FileRow(url, filename, Some(blobSize), now)],
                nextFileId := id + 1), id)
  }

  /** `getFileBlob(fileId)`: `None` stands for `undefined`. */
  function GetFileBlob(db: Db, id: Id): (r: Option<FileRow>)
    ensures r.Some? <==> id in db.files
    ensures r.Some? ==> r.value == db.files[id]
  {
    if id in db.files then Some(db.files[id]) else None
  }

  /** `deleteFile(fileId)`: songs are left alone, so their `fileId` may
      now name a row that no longer exists. */
  function DeleteFile(db: Db, id: Id): (r: Db)
    requires Valid(db)
    ensures Valid(r)
    ensures r.files == db.files - {id}
    ensures r.songs == db.songs && r.albums == db.albums
    ensures Generators(r) == Generators(db)
  {
    db.(files := db.files - {id})
  }

  /* --- properties relating several operations --- */

  /** A deleted file's key is never handed out again: saving after the
      delete gives a new, larger key, so a song still holding the old
      `fileId` cannot come to name the new blob. */
  lemma DeletedFileIdNotReissued(db: Db, url: string, filename: Option<string>, size: nat, now: int,
                                 url2: string, filename2: Option<string>, size2: nat, now2: int)
    requires Valid(db)
    ensures var first := SaveFileBlob(db, url, filename, size, now);
      var second := SaveFileBlob(DeleteFile(first.db, first.id), url2, filename2, size2, now2);
      first.id < second.id && GetFileBlob(DeleteFile(first.db, first.id), first.id).None?
  {
  }

  /** Likewise for songs and albums: deleting and adding again never
      reuses the deleted key. */
  lemma DeletedSongIdNotReissued(db: Db, song: NewSong, now: int, song2: NewSong, now2: int)
    requires Valid(db)
    ensures var first := AddSong(db, song, now);
      first.id < AddSong(DeleteSong(first.db, first.id), song2, now2).id
  {
  }

  lemma DeletedAlbumIdNotReissued(db: Db, name: string, d: Option<string>, now: int,
                                  name2: string, d2: Option<string>, now2: int)
    requires Valid(db)
    ensures var first := CreateAlbum(db, name, d, now);
      first.id < CreateAlbum(DeleteAlbum(first.db, first.id), name2, d2, now2).id
  {
  }

  /** Every song's album reference names an existing album. */
  predicate AlbumRefsValid(db: Db) {
    forall k :: k in db.songs && db.songs[k].albumId.Some? ==> db.songs[k].albumId.value in db.albums
  }

  /** Deleting an album never leaves a song pointing at it. */
  lemma DeleteAlbumKeepsRefsValid(db: Db, id: Id)
    requires Valid(db) && AlbumRefsValid(db)
    ensures AlbumRefsValid(DeleteAlbum(db, id))
  {
  }

  /** After `deleteAlbum(id)`, `getSongsByAlbum(id)` is empty. */
  lemma DeleteAlbumEmptiesAlbum(db: Db, id: Id)
    requires Valid(db)
    ensures GetSongsByAlbum(DeleteAlbum(db, id), id) == []
  {
  }

  /** Any sequence meeting `getAlbums`' contract is its result: the order
      and the contents are fully determined. */
  lemma GetAlbumsIsDetermined(db: Db, s: seq<(Id, AlbumRow)>)
    requires Valid(db)
    requires NewestFirst(s, CreatedAt)
    requires forall k :: 0 <= k < |s| ==> InTable(db.albums, s[k])
    requires forall id :: id in db.albums ==> (id, db.albums[id]) in s
    ensures s == GetAlbums(db)
  {
    var r := GetAlbums(db);
    forall e ensures e in s <==> e in r {
      if e in s {
        var k :| 0 <= k < |s| && s[k] == e;
        assert InTable(db.albums, s[k]);
      }
      if e in r {
        var k :| 0 <= k < |r| && r[k] == e;
        assert InTable(db.albums, r[k]);
      }
    }
    NewestFirstIsDetermined(s, r, CreatedAt);
  }

  /** A newly created album is listed by `getAlbums`. */
  lemma CreatedAlbumIsListed(db: Db, name: string, description: Option<string>, now: int)
    requires Valid(db)
    ensures var c := CreateAlbum(db, name, description, now);
      (c.id, AlbumRow(name, now, description, None)) in GetAlbums(c.db)
  {
  }

  /** A song added no earlier than every stored song heads `getRecentSongs`:
      it has the latest timestamp and the largest id. */
  lemma AddedSongHeadsRecent(db: Db, song: NewSong, now: int, limit: nat)
    requires Valid(db) && 1 <= limit
    requires forall k :: k in db.songs ==> db.songs[k].addedAt <= now
    ensures var c := AddSong(db, song, now);
      var recent := GetRecentSongs(c.db, limit);
      |recent| > 0 && recent[0] == (c.id, FromNew(song, now))
  {
    var c := AddSong(db, song, now);
    var recent := GetRecentSongs(c.db, limit);
    var e := (c.id, FromNew(song, now));
    assert c.db.songs[c.id] == FromNew(song, now);
    NothingNewerThanLatest(c.db.songs, e, recent);
    assert |recent| > 0 ==> !Newer(recent[0], e, AddedAt);
    assert e in recent;
    MaximalHeads(recent, e, AddedAt);
  }

  lemma NothingNewerThanLatest(m: map<Id, SongRow>, e: (Id, SongRow), s: seq<(Id, SongRow)>)
    requires InTable(m, e)
    requires forall k :: k in m ==> m[k].addedAt <= e.1.addedAt && k <= e.0
    requires forall k :: 0 <= k < |s| ==> InTable(m, s[k])
    ensures forall k :: 0 <= k < |s| ==> !Newer(s[k], e, AddedAt)
  {
  }

  /** `updateSong` then reading the row back gives the patched row. */
  lemma UpdateThenRead(db: Db, id: Id, patch: SongPatch)
    requires Valid(db) && id in db.songs
    ensures var r := UpdateSong(db, id, patch).songs[id];
      && (patch.title.Some? ==> r.title == patch.title.value)
      && (patch.title.None? ==> r.title == db.songs[id].title)
      && r.url == patch.url.OrElse(db.songs[id].url)
      && r.platform == patch.platform.OrElse(db.songs[id].platform)
      && r.duration == patch.duration.OrElse(db.songs[id].duration)
      && r.addedAt == patch.addedAt.OrElse(db.songs[id].addedAt)
      && r.albumId == patch.albumId.OrElse(db.songs[id].albumId)
      && r.thumbnail == patch.thumbnail.OrElse(db.songs[id].thumbnail)
      && r.fileId == patch.fileId.OrElse(db.songs[id].fileId)
      && (patch == NoChanges ==> r == db.songs[id])
  {
    EmptyPatchKeepsRow(db.songs[id]);
  }

  /** `saveFileBlob` then `getFileBlob` with the returned id. */
  lemma SaveThenGetFile(db: Db, url: string, filename: Option<string>, blobSize: nat, now: int)
    requires Valid(db)
    ensures var c := SaveFileBlob(db, url, filename, blobSize, now);
      GetFileBlob(c.db, c.id) == Some(FileRow(url, filename, Some(blobSize), now))
  {
  }

  /** `deleteFile` leaves songs that referenced the file with a reference
      whose lookup now yields nothing. */
  lemma DeleteFileLeavesDanglingRefs(db: Db, fileId: Id, songId: Id)
    requires Valid(db) && songId in db.songs && db.songs[songId].fileId == Some(fileId)
    ensures var r := DeleteFile(db, fileId);
      songId in r.songs && r.songs[songId].fileId == Some(fileId) && GetFileBlob(r, fileId).None?
  {
  }
}
