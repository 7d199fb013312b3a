/** The database the handlers talk to: the groups and songs tables, changed in
    place by the writing statements of query.sql.go, and a log of the getGroup
    lookups made through it. */
module Database {
  import opened Wrappers
  import opened Text
  import opened Models
  import opened Queries

  class Store {
    var groups: seq<GroupRow>
    var songs: seq<SongRow>
    /** Every id passed to FetchGroup, in call order. */
    ghost var lookupLog: seq<Uuid>

    /** Primary keys are unique. */
    ghost predicate Valid()
      reads this
    {
      UniqueGroupIds(groups) && UniqueSongIds(songs)
    }

    constructor ()
      ensures Valid() && groups == [] && songs == [] && lookupLog == []
    {
      groups := [];
      songs := [];
      lookupLog := [];
    }

    /** createGroup: INSERT INTO groups (name); a taken id violates the key. */
    method CreateGroup(id: Uuid, name: String, now: Timestamp) returns (r: Outcome)
      requires Valid()
      modifies this`groups
      ensures Valid()
      ensures r.Pass? <==> GetGroup(old(groups), id).Err?
      ensures r.Pass? ==> groups == old(groups) + [NewGroup(id, name, now)]
      ensures r.Fail? ==> r.error == UniqueViolation && groups == old(groups)
    {
      if GetGroup(groups, id).Ok? {
        return Fail(UniqueViolation);
      }
      groups := groups + [NewGroup(id, name, now)];
      r := Pass;
    }

    /** createSong: INSERT INTO songs (group_id, title, runtime, lyrics,
        release_date, link); a taken id violates the key. */
    method CreateSong(id: Uuid, f: SongFields, now: Timestamp) returns (r: Outcome)
      requires Valid()
      modifies this`songs
      ensures Valid()
      ensures r.Pass? <==> GetSong(old(songs), id).Err?
      ensures r.Pass? ==> songs == old(songs) + [NewSong(id, f, now)]
      ensures r.Fail? ==> r.error == UniqueViolation && songs == old(songs)
    {
      if GetSong(songs, id).Ok? {
        return Fail(UniqueViolation);
      }
      songs := songs + [NewSong(id, f, now)];
      r := Pass;
    }

    /** updateGroup: UPDATE groups SET name = $2 WHERE id = $1. */
    method UpdateGroup(id: Uuid, name: String)
      requires Valid()
      modifies this`groups
      ensures Valid()
      ensures groups == UpdateGroupRows(old(groups), id, name)
    {
      groups := UpdateGroupRows(groups, id, name);
    }

    /** updateSong: UPDATE songs SET the six written columns WHERE id = $1. */
    method UpdateSong(id: Uuid, f: SongFields)
      requires Valid()
      modifies this`songs
      ensures Valid()
      ensures songs == UpdateSongRows(old(songs), id, f)
    {
      songs := UpdateSongRows(songs, id, f);
    }

    /** deleteGroup: UPDATE groups SET deleted_at = NOW() WHERE id = $1 AND
        deleted_at IS NULL. */
    method DeleteGroup(id: Uuid, now: Timestamp)
      requires Valid()
      modifies this`groups
      ensures Valid()
      ensures groups == DeleteGroupRows(old(groups), id, now)
    {
      groups := DeleteGroupRows(groups, id, now);
    }

    /** deleteSong: UPDATE songs SET deleted_at = NOW() WHERE id = $1 AND
        deleted_at IS NULL. */
    method DeleteSong(id: Uuid, now: Timestamp)
      requires Valid()
      modifies this`songs
      ensures Valid()
      ensures songs == DeleteSongRows(old(songs), id, now)
    {
      songs := DeleteSongRows(songs, id, now);
    }

    /** getGroup as the group service runs it; each call is logged. */
    method FetchGroup(id: Uuid) returns (r: Result<GroupRow>)
      modifies this`lookupLog
      ensures r == GetGroup(groups, id)
      ensures lookupLog == old(lookupLog) + [id]
    {
      r := GetGroup(groups, id);
      lookupLog := lookupLog + [id];
    }
  }
}
