/** The SQL statements of query.sql.go, stated over the contents of the two
    tables: lookups by id, counts and pages of live rows, the filtered join,
    and the row images of the UPDATE statements. The Store class applies the
    writing statements to its tables. */
module Queries {
  import opened Wrappers
  import opened Text
  import opened Seqs
  import opened Models

  // ------------------------------------------------------- lookups by id

  /** getGroup: WHERE id = $1 LIMIT 1, with no deleted_at condition. */
  function GetGroup(groups: seq<GroupRow>, id: Uuid): (r: Result<GroupRow>)
    ensures r.Ok? ==> r.value in groups && r.value.id == id
    ensures r.Err? ==> r.error == NotFound && forall i :: 0 <= i < |groups| ==> groups[i].id != id
  {
    match Find(groups, (g: GroupRow) => g.id == id)
    case Some(g) => Ok(g)
    case None => Err(NotFound)
  }

  /** getSong: WHERE id = $1 LIMIT 1, with no deleted_at condition. */
  function GetSong(songs: seq<SongRow>, id: Uuid): (r: Result<SongRow>)
    ensures r.Ok? ==> r.value in songs && r.value.id == id
    ensures r.Err? ==> r.error == NotFound && forall i :: 0 <= i < |songs| ==> songs[i].id != id
  {
    match Find(songs, (s: SongRow) => s.id == id)
    case Some(s) => Ok(s)
    case None => Err(NotFound)
  }

  ghost predicate UniqueGroupIds(groups: seq<GroupRow>) {
    forall i, j :: 0 <= i < j < |groups| ==> groups[i].id != groups[j].id
  }

  ghost predicate UniqueSongIds(songs: seq<SongRow>) {
    forall i, j :: 0 <= i < j < |songs| ==> songs[i].id != songs[j].id
  }

  /** With the primary key unique, getGroup returns the row with that id,
      soft-deleted or not. */
  lemma GetGroupFinds(groups: seq<GroupRow>, k: nat)
    requires UniqueGroupIds(groups) && k < |groups|
    ensures GetGroup(groups, groups[k].id) == Ok(groups[k])
  {
    FindUnique(groups, (g: GroupRow) => g.id == groups[k].id, k);
  }

  /** With the primary key unique, getSong returns the row with that id,
      soft-deleted or not. */
  lemma GetSongFinds(songs: seq<SongRow>, k: nat)
    requires UniqueSongIds(songs) && k < |songs|
    ensures GetSong(songs, songs[k].id) == Ok(songs[k])
  {
    FindUnique(songs, (s: SongRow) => s.id == songs[k].id, k);
  }

  // ------------------------------------------------- counts and pages

  /** getGroupsCount: count(*) WHERE deleted_at IS NULL. */
  function GroupsCount(groups: seq<GroupRow>): (n: nat)
    ensures n <= |groups|
    ensures n == |groups| <==> forall i :: 0 <= i < |groups| ==> GroupLive(groups[i])
    ensures n == 0 <==> forall i :: 0 <= i < |groups| ==> !GroupLive(groups[i])
  {
    FilterCountExtremes(groups, GroupLive);
    |Filter(groups, GroupLive)|
  }

  /** getSongsCount: count(*) WHERE deleted_at IS NULL. */
  function SongsCount(songs: seq<SongRow>): (n: nat)
    ensures n <= |songs|
    ensures n == |songs| <==> forall i :: 0 <= i < |songs| ==> SongLive(songs[i])
    ensures n == 0 <==> forall i :: 0 <= i < |songs| ==> !SongLive(songs[i])
  {
    FilterCountExtremes(songs, SongLive);
    |Filter(songs, SongLive)|
  }

  /** The live groups, newest first (ORDER BY created_at DESC). */
  function LiveGroupsByNewest(groups: seq<GroupRow>): (r: seq<GroupRow>)
    ensures |r| == GroupsCount(groups)
    ensures SortedDesc(r, GroupCreated)
    ensures multiset(r) == multiset(Filter(groups, GroupLive))
  {
    SortDesc(Filter(groups, GroupLive), GroupCreated)
  }

  /** The live songs, newest first (ORDER BY created_at DESC). */
  function LiveSongsByNewest(songs: seq<SongRow>): (r: seq<SongRow>)
    ensures |r| == SongsCount(songs)
    ensures SortedDesc(r, SongCreated)
    ensures multiset(r) == multiset(Filter(songs, SongLive))
  {
    SortDesc(Filter(songs, SongLive), SongCreated)
  }

  /** getGroupsWithPagination: the window [offset, offset + limit) of the
      live groups, newest first, without deleted_at. */
  function GroupsWithPagination(groups: seq<GroupRow>, limit: nat, offset: nat): (r: seq<GroupListRow>)
    ensures var count := GroupsCount(groups);
      |r| == if offset >= count then 0 else Min(limit, count - offset)
    ensures forall k :: 0 <= k < |r| ==> r[k] == ListGroup(LiveGroupsByNewest(groups)[offset + k])
  {
    Map(Window(LiveGroupsByNewest(groups), limit, offset), ListGroup)
  }

  /** getSongsWithPagination: the window [offset, offset + limit) of the live
      songs, newest first, without deleted_at. */
  function SongsWithPagination(songs: seq<SongRow>, limit: nat, offset: nat): (r: seq<SongListRow>)
    ensures var count := SongsCount(songs);
      |r| == if offset >= count then 0 else Min(limit, count - offset)
    ensures forall k :: 0 <= k < |r| ==> r[k] == ListSong(LiveSongsByNewest(songs)[offset + k])
  {
    Map(Window(LiveSongsByNewest(songs), limit, offset), ListSong)
  }

  predicate LiveSongOf(s: SongRow, groupId: Uuid) {
    s.groupId == groupId && SongLive(s)
  }

  /** All live songs of a group, latest release first (ORDER BY release_date DESC). */
  function GroupSongsByRelease(songs: seq<SongRow>, groupId: Uuid): (r: seq<SongRow>)
    ensures SortedDesc(r, SongReleased)
    ensures multiset(r) == multiset(Filter(songs, (s: SongRow) => LiveSongOf(s, groupId)))
  {
    SortDesc(Filter(songs, (s: SongRow) => LiveSongOf(s, groupId)), SongReleased)
  }

  /** The list holds exactly the live songs of the group. */
  lemma GroupSongsMembers(songs: seq<SongRow>, groupId: Uuid)
    ensures forall s :: s in GroupSongsByRelease(songs, groupId) <==> s in songs && LiveSongOf(s, groupId)
  {
    var p := (s: SongRow) => LiveSongOf(s, groupId);
    var all := GroupSongsByRelease(songs, groupId);
    FilterMembers(songs, p);
    forall s ensures s in all <==> s in songs && LiveSongOf(s, groupId) {
      assert s in all <==> s in multiset(all);
      assert s in Filter(songs, p) <==> s in multiset(Filter(songs, p));
    }
  }

  /** getSongsByGroup: WHERE group_id = $1 AND deleted_at IS NULL ORDER BY
      release_date DESC LIMIT $2 OFFSET $3 -- the window [offset, offset + limit)
      of the group's live songs, latest release first. */
  function SongsByGroup(songs: seq<SongRow>, groupId: Uuid, limit: nat, offset: nat): (r: seq<SongRow>)
    ensures var n := |GroupSongsByRelease(songs, groupId)|;
      |r| == if offset >= n then 0 else Min(limit, n - offset)
    ensures forall k :: 0 <= k < |r| ==> r[k] == GroupSongsByRelease(songs, groupId)[offset + k]
  {
    Window(GroupSongsByRelease(songs, groupId), limit, offset)
  }

  /** A group's page holds only live songs of that group, latest release first,
      and at most limit of them; every live song of the group is on some page. */
  lemma SongsByGroupRows(songs: seq<SongRow>, groupId: Uuid, limit: nat, offset: nat)
    ensures var r := SongsByGroup(songs, groupId, limit, offset);
      && |r| <= limit
      && SortedDesc(r, SongReleased)
      && (forall k :: 0 <= k < |r| ==> r[k] in songs && LiveSongOf(r[k], groupId))
    ensures forall i :: 0 <= i < |songs| && LiveSongOf(songs[i], groupId) ==>
      songs[i] in GroupSongsByRelease(songs, groupId)
  {
    var all := GroupSongsByRelease(songs, groupId);
    GroupSongsMembers(songs, groupId);
    WindowSorted(all, SongReleased, limit, offset);
    var r := SongsByGroup(songs, groupId, limit, offset);
    forall k | 0 <= k < |r| ensures r[k] in songs && LiveSongOf(r[k], groupId) {
      assert r[k] in all;
    }
  }

  // ------------------------------------------------------ filtered join

  /** A row of songs s JOIN groups g ON s.group_id = g.id. */
  datatype JoinedRow = JoinedRow(song: SongRow, group: GroupRow)

  function JoinedCreated(j: JoinedRow): int { j.song.createdAt }
  function JoinedSong(j: JoinedRow): SongRow { j.song }
  function ListJoined(j: JoinedRow): SongListRow { ListSong(j.song) }

  /** The groups rows with a given id. */
  function GroupsWithId(groups: seq<GroupRow>, id: Uuid): seq<GroupRow> {
    Filter(groups, (g: GroupRow) => g.id == id)
  }

  /** The inner join: each song paired with every group row whose id is the
      song's group_id, in song order. */
  function InnerJoin(songs: seq<SongRow>, groups: seq<GroupRow>): (r: seq<JoinedRow>)
    decreases |songs|
  {
    if songs == [] then []
    else
      Map(GroupsWithId(groups, songs[0].groupId), (g: GroupRow) => JoinedRow(songs[0], g))
      + InnerJoin(songs[1..], groups)
  }

  /** Every joined row pairs a song with a group carrying its group_id, and
      every such pair is joined. */
  lemma {:induction false} JoinMembers(songs: seq<SongRow>, groups: seq<GroupRow>)
    ensures forall j :: j in InnerJoin(songs, groups) ==>
      j.song in songs && j.group in groups && j.song.groupId == j.group.id
    ensures forall i, k :: 0 <= i < |songs| && 0 <= k < |groups| && groups[k].id == songs[i].groupId ==>
      JoinedRow(songs[i], groups[k]) in InnerJoin(songs, groups)
  {
    if songs != [] {
      var s := songs[0];
      var mine := GroupsWithId(groups, s.groupId);
      var mk := (g: GroupRow) => JoinedRow(s, g);
      JoinMembers(songs[1..], groups);
      FilterMembers(groups, (g: GroupRow) => g.id == s.groupId);
      var head := Map(mine, mk);
      assert InnerJoin(songs, groups) == head + InnerJoin(songs[1..], groups);
      forall j | j in head ensures j.song in songs && j.group in groups && j.song.groupId == j.group.id {
        var k :| 0 <= k < |head| && head[k] == j;
        assert j == JoinedRow(s, mine[k]);
      }
      forall i, k | 0 <= i < |songs| && 0 <= k < |groups| && groups[k].id == songs[i].groupId
        ensures JoinedRow(songs[i], groups[k]) in InnerJoin(songs, groups)
      {
        if i == 0 {
          var m :| 0 <= m < |mine| && mine[m] == groups[k];
          assert head[m] == JoinedRow(songs[i], groups[k]);
        } else {
          assert songs[i] == songs[1..][i - 1];
        }
      }
    }
  }

  /** LOWER(value) LIKE LOWER('%' || NULLIF(filter, '') || '%') OR filter = '':
      an empty filter matches everything, otherwise a case-insensitive
      substring test. */
  predicate LikeFilter(value: String, filter: String) {
    filter == [] || Contains(Lower(value), Lower(filter))
  }

  /** The WHERE clause shared by getSongsWithFilters and getSongsCountWithFilters. */
  predicate SongMatches(j: JoinedRow, groupFilter: String, titleFilter: String) {
    SongLive(j.song) && LikeFilter(j.group.name, groupFilter) && LikeFilter(j.song.title, titleFilter)
  }

  /** The rows both filtered statements select, before ordering. */
  function FilteredRows(groups: seq<GroupRow>, songs: seq<SongRow>, groupFilter: String, titleFilter: String): seq<JoinedRow> {
    Filter(InnerJoin(songs, groups), (j: JoinedRow) => SongMatches(j, groupFilter, titleFilter))
  }

  /** getSongsCountWithFilters. */
  function SongsCountWithFilters(groups: seq<GroupRow>, songs: seq<SongRow>, groupFilter: String, titleFilter: String): (n: nat)
    ensures n <= |InnerJoin(songs, groups)|
    ensures var joined := InnerJoin(songs, groups);
      n == 0 <==> forall i :: 0 <= i < |joined| ==> !SongMatches(joined[i], groupFilter, titleFilter)
  {
    FilterCountExtremes(InnerJoin(songs, groups), (j: JoinedRow) => SongMatches(j, groupFilter, titleFilter));
    |FilteredRows(groups, songs, groupFilter, titleFilter)|
  }

  /** The counted rows, newest first. */
  function FilteredByNewest(groups: seq<GroupRow>, songs: seq<SongRow>, groupFilter: String, titleFilter: String): (r: seq<JoinedRow>)
    ensures |r| == SongsCountWithFilters(groups, songs, groupFilter, titleFilter)
    ensures SortedDesc(r, JoinedCreated)
    ensures multiset(r) == multiset(FilteredRows(groups, songs, groupFilter, titleFilter))
  {
    SortDesc(FilteredRows(groups, songs, groupFilter, titleFilter), JoinedCreated)
  }

  /** getSongsWithFilters: the window [offset, offset + limit) of the counted
      rows, newest first. */
  function SongsWithFilters(groups: seq<GroupRow>, songs: seq<SongRow>, limit: nat, offset: nat,
                            groupFilter: String, titleFilter: String): (r: seq<SongListRow>)
    ensures var count := SongsCountWithFilters(groups, songs, groupFilter, titleFilter);
      |r| == if offset >= count then 0 else Min(limit, count - offset)
    ensures forall k :: 0 <= k < |r| ==>
      r[k] == ListJoined(FilteredByNewest(groups, songs, groupFilter, titleFilter)[offset + k])
  {
    Map(Window(FilteredByNewest(groups, songs, groupFilter, titleFilter), limit, offset), ListJoined)
  }

  // ---------------------------------------------------------- row images

  /** deleted_at = NOW() where it is still NULL. */
  function MarkDeleted(deletedAt: Option<Timestamp>, now: Timestamp): (r: Option<Timestamp>)
    ensures deletedAt.None? ==> r == Some(now)
    ensures deletedAt.Some? ==> r == deletedAt
  {
    if deletedAt.None? then Some(now) else deletedAt
  }

  /** deleteGroup's effect on one row. */
  function DeleteGroupRow(g: GroupRow, id: Uuid, now: Timestamp): GroupRow {
    if g.id == id then g.(deletedAt := MarkDeleted(g.deletedAt, now)) else g
  }

  /** deleteSong's effect on one row. */
  function DeleteSongRow(s: SongRow, id: Uuid, now: Timestamp): SongRow {
    if s.id == id then s.(deletedAt := MarkDeleted(s.deletedAt, now)) else s
  }

  /** updateGroup's effect on one row: SET name = $2 WHERE id = $1. */
  function UpdateGroupRow(g: GroupRow, id: Uuid, name: String): GroupRow {
    if g.id == id then g.(name := name) else g
  }

  /** updateSong's effect on one row: the six written columns WHERE id = $1. */
  function UpdateSongRow(s: SongRow, id: Uuid, f: SongFields): SongRow {
    if s.id == id then WithFields(s, f) else s
  }

  /** deleteGroup: only the live row with the id gets deleted_at; nothing else changes. */
  function DeleteGroupRows(groups: seq<GroupRow>, id: Uuid, now: Timestamp): (r: seq<GroupRow>)
    ensures |r| == |groups|
    ensures forall i :: 0 <= i < |r| ==> r[i].(deletedAt := groups[i].deletedAt) == groups[i]
    ensures forall i :: 0 <= i < |r| ==>
      r[i].deletedAt == if groups[i].id == id && GroupLive(groups[i]) then Some(now) else groups[i].deletedAt
  {
    Map(groups, (g: GroupRow) => DeleteGroupRow(g, id, now))
  }

  /** deleteSong: only the live row with the id gets deleted_at; nothing else changes. */
  function DeleteSongRows(songs: seq<SongRow>, id: Uuid, now: Timestamp): (r: seq<SongRow>)
    ensures |r| == |songs|
    ensures forall i :: 0 <= i < |r| ==> r[i].(deletedAt := songs[i].deletedAt) == songs[i]
    ensures forall i :: 0 <= i < |r| ==>
      r[i].deletedAt == if songs[i].id == id && SongLive(songs[i]) then Some(now) else songs[i].deletedAt
  {
    Map(songs, (s: SongRow) => DeleteSongRow(s, id, now))
  }

  /** updateGroup: the rows with the id, deleted or not, get the new name; no
      other column and no other row changes. */
  function UpdateGroupRows(groups: seq<GroupRow>, id: Uuid, name: String): (r: seq<GroupRow>)
    ensures |r| == |groups|
    ensures forall i :: 0 <= i < |r| ==> r[i].(name := groups[i].name) == groups[i]
    ensures forall i :: 0 <= i < |r| ==> r[i].name == if groups[i].id == id then name else groups[i].name
  {
    Map(groups, (g: GroupRow) => UpdateGroupRow(g, id, name))
  }

  /** updateSong: the rows with the id, deleted or not, get the six written
      columns; id, created_at, updated_at and deleted_at are kept. */
  function UpdateSongRows(songs: seq<SongRow>, id: Uuid, f: SongFields): (r: seq<SongRow>)
    ensures |r| == |songs|
    ensures forall i :: 0 <= i < |r| ==>
      && r[i].id == songs[i].id && r[i].createdAt == songs[i].createdAt
      && r[i].updatedAt == songs[i].updatedAt && r[i].deletedAt == songs[i].deletedAt
    ensures forall i :: 0 <= i < |r| ==> r[i] == if songs[i].id == id then WithFields(songs[i], f) else songs[i]
  {
    Map(songs, (s: SongRow) => UpdateSongRow(s, id, f))
  }
}
