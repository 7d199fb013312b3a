/** What the SQL statements of query.sql.go promise, proved about their
    semantics in Queries. */
module QueryLaws {
  import opened Wrappers
  import opened Text
  import opened Seqs
  import opened Models
  import opened Queries
  import opened Pagination

  // ----------------------------------------------------------- the filter

  /** A non-empty filter matches exactly when its lowered form occurs in the
      lowered value; an empty filter matches every value. */
  lemma LikeFilterAt(value: String, filter: String)
    ensures LikeFilter(value, filter) <==>
      filter == [] || exists i :: OccursAt(Lower(value), Lower(filter), i)
  {
    ContainsAt(Lower(value), Lower(filter));
  }

  /** The case of neither the value nor the filter matters. */
  lemma LikeFilterIgnoresCase(value: String, filter: String)
    ensures LikeFilter(value, filter) == LikeFilter(Lower(value), filter)
    ensures LikeFilter(value, filter) == LikeFilter(value, Lower(filter))
  {
    LowerIdempotent(value);
    LowerIdempotent(filter);
  }

  /** Any piece of a value, typed as a filter, finds that value. */
  lemma LikeFilterInfix(value: String, i: nat, j: nat)
    requires i <= j <= |value|
    ensures LikeFilter(value, value[i..j])
  {
    var lv := Lower(value);
    LikeFilterAt(value, value[i..j]);
    assert lv[i..j] == Lower(value[i..j]);
    assert OccursAt(lv, Lower(value[i..j]), i);
  }

  /** A filter longer than the value never matches it. */
  lemma LikeFilterTooLong(value: String, filter: String)
    requires |filter| > |value|
    ensures !LikeFilter(value, filter)
  {
    LikeFilterAt(value, filter);
  }

  // ------------------------------------------------ what the join selects

  /** A song is counted with a group row exactly when the row carries the
      song's group_id and the WHERE clause holds; the group's own deleted_at
      plays no part, so the songs of a soft-deleted group are still listed. */
  lemma CountedIff(groups: seq<GroupRow>, songs: seq<SongRow>, gf: String, tf: String, i: nat, k: nat)
    requires i < |songs| && k < |groups|
    ensures JoinedRow(songs[i], groups[k]) in FilteredRows(groups, songs, gf, tf) <==>
      groups[k].id == songs[i].groupId && SongLive(songs[i])
      && LikeFilter(groups[k].name, gf) && LikeFilter(songs[i].title, tf)
  {
    JoinMembers(songs, groups);
    var p := (j: JoinedRow) => SongMatches(j, gf, tf);
    FilterMembers(InnerJoin(songs, groups), p);
    var j := JoinedRow(songs[i], groups[k]);
    if groups[k].id == songs[i].groupId && p(j) {
      var m :| 0 <= m < |InnerJoin(songs, groups)| && InnerJoin(songs, groups)[m] == j;
    }
  }

  /** A song whose group_id names no groups row is never counted nor listed. */
  lemma DanglingSongExcluded(groups: seq<GroupRow>, songs: seq<SongRow>, gf: String, tf: String, j: JoinedRow)
    requires j in FilteredRows(groups, songs, gf, tf)
    ensures GetGroup(groups, j.song.groupId).Ok?
    ensures j.song in songs && j.group in groups && SongMatches(j, gf, tf)
  {
    JoinMembers(songs, groups);
    FilterMembers(InnerJoin(songs, groups), (j: JoinedRow) => SongMatches(j, gf, tf));
  }

  /** A listed row comes from the counted rows. */
  ghost predicate FromCounted(groups: seq<GroupRow>, songs: seq<SongRow>, gf: String, tf: String, row: SongListRow) {
    exists j :: j in FilteredRows(groups, songs, gf, tf) && ListJoined(j) == row
  }

  /** The filtered fetch and the filtered count share their WHERE clause: a
      page never holds more rows than the count and every row it holds is one
      of the counted rows. */
  lemma FetchWithinCount(groups: seq<GroupRow>, songs: seq<SongRow>, limit: nat, offset: nat, gf: String, tf: String)
    ensures var r := SongsWithFilters(groups, songs, limit, offset, gf, tf);
      && |r| <= SongsCountWithFilters(groups, songs, gf, tf)
      && forall k :: 0 <= k < |r| ==> FromCounted(groups, songs, gf, tf, r[k])
  {
    var r := SongsWithFilters(groups, songs, limit, offset, gf, tf);
    var sorted := FilteredByNewest(groups, songs, gf, tf);
    forall k | 0 <= k < |r| ensures FromCounted(groups, songs, gf, tf, r[k]) {
      var j := sorted[offset + k];
      assert j in multiset(sorted);
      assert j in FilteredRows(groups, songs, gf, tf);
    }
  }

  /** The filtered pages 1 .. n, concatenated. */
  function FilteredPages(groups: seq<GroupRow>, songs: seq<SongRow>, limit: int, gf: String, tf: String, n: nat): seq<SongListRow>
    requires limit >= 1
  {
    if n == 0 then []
    else FilteredPages(groups, songs, limit, gf, tf, n - 1) + SongsWithFilters(groups, songs, limit, Offset(n, limit), gf, tf)
  }

  lemma {:induction false} FilteredPagesArePaged(groups: seq<GroupRow>, songs: seq<SongRow>, limit: int, gf: String, tf: String, n: nat)
    requires limit >= 1
    ensures FilteredPages(groups, songs, limit, gf, tf, n) == Map(Paged(FilteredByNewest(groups, songs, gf, tf), limit, n), ListJoined)
  {
    if n > 0 {
      var sorted := FilteredByNewest(groups, songs, gf, tf);
      FilteredPagesArePaged(groups, songs, limit, gf, tf, n - 1);
      var off := Offset(n, limit);
      assert off == (n - 1) * limit;
      assert FilteredPages(groups, songs, limit, gf, tf, n)
          == FilteredPages(groups, songs, limit, gf, tf, n - 1) + Map(Window(sorted, limit, off), ListJoined);
      MapAppend(Paged(sorted, limit, n - 1), Window(sorted, limit, (n - 1) * limit), ListJoined);
    }
  }

  /** Paging through all the pages the count announces lists every counted
      row exactly once, newest first. */
  lemma FilteredPagesCover(groups: seq<GroupRow>, songs: seq<SongRow>, limit: int, gf: String, tf: String)
    requires limit >= 1
    ensures var pages := PageCount(SongsCountWithFilters(groups, songs, gf, tf), limit);
      FilteredPages(groups, songs, limit, gf, tf, pages) == Map(FilteredByNewest(groups, songs, gf, tf), ListJoined)
  {
    var sorted := FilteredByNewest(groups, songs, gf, tf);
    FilteredPagesArePaged(groups, songs, limit, gf, tf, PageCount(|sorted|, limit));
    PagesCover(sorted, limit);
  }

  // ------------------------------------ the two list paths with no filter

  /** Every song's group_id names a groups row. */
  ghost predicate SongsReferenceGroups(songs: seq<SongRow>, groups: seq<GroupRow>) {
    forall i :: 0 <= i < |songs| ==> GetGroup(groups, songs[i].groupId).Ok?
  }

  /** With unique group ids and no dangling song, the join pairs every song
      with exactly one group. */
  lemma {:induction false} JoinProjectsSongs(songs: seq<SongRow>, groups: seq<GroupRow>)
    requires UniqueGroupIds(groups) && SongsReferenceGroups(songs, groups)
    ensures Map(InnerJoin(songs, groups), JoinedSong) == songs
  {
    if songs != [] {
      var s := songs[0];
      JoinOne(s, groups);
      ReferencesOfTail(songs, groups);
      JoinProjectsSongs(songs[1..], groups);
      InnerJoinCons(songs, groups);
      MapAppend(InnerJoin([s], groups), InnerJoin(songs[1..], groups), JoinedSong);
      assert songs == [s] + songs[1..];
    }
  }

  /** A song whose group exists, under unique group ids, joins exactly once. */
  lemma JoinOne(s: SongRow, groups: seq<GroupRow>)
    requires UniqueGroupIds(groups) && GetGroup(groups, s.groupId).Ok?
    ensures Map(InnerJoin([s], groups), JoinedSong) == [s]
  {
    var g := GetGroup(groups, s.groupId).value;
    var k :| 0 <= k < |groups| && groups[k] == g;
    FilterSingle(groups, (x: GroupRow) => x.id == s.groupId, k);
    assert [s][1..] == [];
    assert InnerJoin([s], groups) == [JoinedRow(s, g)];
  }

  lemma InnerJoinCons(songs: seq<SongRow>, groups: seq<GroupRow>)
    requires songs != []
    ensures InnerJoin(songs, groups) == InnerJoin([songs[0]], groups) + InnerJoin(songs[1..], groups)
  {
    assert [songs[0]][1..] == [];
  }

  lemma ReferencesOfTail(songs: seq<SongRow>, groups: seq<GroupRow>)
    requires songs != [] && SongsReferenceGroups(songs, groups)
    ensures SongsReferenceGroups(songs[1..], groups)
  {
    forall i | 0 <= i < |songs| - 1 ensures GetGroup(groups, songs[1..][i].groupId).Ok? {
      assert songs[1..][i] == songs[i + 1];
    }
  }

  /** GetAllSongs takes the filtered path only when a filter is given. Were it
      to take it with both filters empty, it would report the same total and
      the same page, as long as group ids are unique and every song's group
      exists: the two paths agree. */
  lemma EmptyFiltersAgree(groups: seq<GroupRow>, songs: seq<SongRow>, limit: nat, offset: nat)
    requires UniqueGroupIds(groups) && SongsReferenceGroups(songs, groups)
    ensures SongsCountWithFilters(groups, songs, [], []) == SongsCount(songs)
    ensures SongsWithFilters(groups, songs, limit, offset, [], []) == SongsWithPagination(songs, limit, offset)
  {
    var joined := InnerJoin(songs, groups);
    var p := (j: JoinedRow) => SongMatches(j, [], []);
    var rows := Filter(joined, p);
    JoinProjectsSongs(songs, groups);
    MapFilter(joined, JoinedSong, p, SongLive);
    assert Map(rows, JoinedSong) == Filter(songs, SongLive);
    MapSortDesc(rows, JoinedSong, JoinedCreated, SongCreated);
    var sorted := SortDesc(rows, JoinedCreated);
    assert Map(sorted, JoinedSong) == LiveSongsByNewest(songs);
    MapWindow(sorted, JoinedSong, limit, offset);
    var w := Window(sorted, limit, offset);
    assert Map(w, JoinedSong) == Window(LiveSongsByNewest(songs), limit, offset);
    assert Map(w, ListJoined) == Map(Map(w, JoinedSong), ListSong);
  }

  // ------------------------------------------------------------ soft delete

  /** Deleting again, at any later time, changes nothing: the first
      deleted_at is never overwritten. */
  lemma DeleteGroupIdempotent(groups: seq<GroupRow>, id: Uuid, first: Timestamp, again: Timestamp)
    ensures DeleteGroupRows(DeleteGroupRows(groups, id, first), id, again) == DeleteGroupRows(groups, id, first)
  {
    var once := DeleteGroupRows(groups, id, first);
    var twice := DeleteGroupRows(once, id, again);
    forall i | 0 <= i < |groups| ensures twice[i] == once[i] {
      assert twice[i].(deletedAt := once[i].deletedAt) == once[i];
    }
  }

  lemma DeleteSongIdempotent(songs: seq<SongRow>, id: Uuid, first: Timestamp, again: Timestamp)
    ensures DeleteSongRows(DeleteSongRows(songs, id, first), id, again) == DeleteSongRows(songs, id, first)
  {
    var once := DeleteSongRows(songs, id, first);
    var twice := DeleteSongRows(once, id, again);
    forall i | 0 <= i < |songs| ensures twice[i] == once[i] {
      assert twice[i].(deletedAt := once[i].deletedAt) == once[i];
    }
  }

  /** Deleting a live group lowers the live count by one; deleting a missing
      or already deleted one leaves it. */
  lemma DeleteGroupCount(groups: seq<GroupRow>, id: Uuid, now: Timestamp)
    requires UniqueGroupIds(groups)
    ensures var after := GroupsCount(DeleteGroupRows(groups, id, now));
      if GetGroup(groups, id).Ok? && GroupLive(GetGroup(groups, id).value)
      then after + 1 == GroupsCount(groups)
      else after == GroupsCount(groups)
  {
    var r := DeleteGroupRows(groups, id, now);
    var found := GetGroup(groups, id);
    if found.Ok? && GroupLive(found.value) {
      var k :| 0 <= k < |groups| && groups[k] == found.value;
      FilterCountOneLess(groups, r, GroupLive, k);
    } else {
      forall i | 0 <= i < |groups| ensures GroupLive(groups[i]) == GroupLive(r[i]) {
        if groups[i].id == id { GetGroupFinds(groups, i); }
      }
      FilterCountPointwise(groups, r, GroupLive);
    }
  }

  /** Deleting a live song lowers the live count by one; deleting a missing
      or already deleted one leaves it. */
  lemma DeleteSongCount(songs: seq<SongRow>, id: Uuid, now: Timestamp)
    requires UniqueSongIds(songs)
    ensures var after := SongsCount(DeleteSongRows(songs, id, now));
      if GetSong(songs, id).Ok? && SongLive(GetSong(songs, id).value)
      then after + 1 == SongsCount(songs)
      else after == SongsCount(songs)
  {
    var r := DeleteSongRows(songs, id, now);
    var found := GetSong(songs, id);
    if found.Ok? && SongLive(found.value) {
      var k :| 0 <= k < |songs| && songs[k] == found.value;
      FilterCountOneLess(songs, r, SongLive, k);
    } else {
      forall i | 0 <= i < |songs| ensures SongLive(songs[i]) == SongLive(r[i]) {
        if songs[i].id == id { GetSongFinds(songs, i); }
      }
      FilterCountPointwise(songs, r, SongLive);
    }
  }

  /** A soft-deleted group is still returned by getGroup, now carrying its
      deletion time. */
  lemma DeletedGroupStillFound(groups: seq<GroupRow>, id: Uuid, now: Timestamp)
    requires GetGroup(groups, id).Ok?
    ensures var g := GetGroup(groups, id).value;
      GetGroup(DeleteGroupRows(groups, id, now), id) == Ok(g.(deletedAt := MarkDeleted(g.deletedAt, now)))
  {
    FindMap(groups, (g: GroupRow) => DeleteGroupRow(g, id, now), (g: GroupRow) => g.id == id, (g: GroupRow) => g.id == id);
  }

  /** A soft-deleted song is still returned by getSong, now carrying its
      deletion time. */
  lemma DeletedSongStillFound(songs: seq<SongRow>, id: Uuid, now: Timestamp)
    requires GetSong(songs, id).Ok?
    ensures var s := GetSong(songs, id).value;
      GetSong(DeleteSongRows(songs, id, now), id) == Ok(s.(deletedAt := MarkDeleted(s.deletedAt, now)))
  {
    FindMap(songs, (s: SongRow) => DeleteSongRow(s, id, now), (s: SongRow) => s.id == id, (s: SongRow) => s.id == id);
  }

  // ---------------------------------------------------- update and insert

  /** An update never changes which rows are live. */
  lemma UpdateKeepsCounts(groups: seq<GroupRow>, songs: seq<SongRow>, id: Uuid, name: String, f: SongFields)
    ensures GroupsCount(UpdateGroupRows(groups, id, name)) == GroupsCount(groups)
    ensures SongsCount(UpdateSongRows(songs, id, f)) == SongsCount(songs)
  {
    var g := UpdateGroupRows(groups, id, name);
    forall i | 0 <= i < |groups| ensures GroupLive(groups[i]) == GroupLive(g[i]) {
      assert g[i].(name := groups[i].name) == groups[i];
    }
    FilterCountPointwise(groups, g, GroupLive);
    FilterCountPointwise(songs, UpdateSongRows(songs, id, f), SongLive);
  }

  /** Inserting a fresh live row raises the live count by one. */
  lemma InsertCounts(groups: seq<GroupRow>, songs: seq<SongRow>, id: Uuid, name: String, f: SongFields, now: Timestamp)
    ensures GroupsCount(groups + [NewGroup(id, name, now)]) == GroupsCount(groups) + 1
    ensures SongsCount(songs + [NewSong(id, f, now)]) == SongsCount(songs) + 1
  {
    var g, s := NewGroup(id, name, now), NewSong(id, f, now);
    FilterAppend(groups, [g], GroupLive);
    FilterAppend(songs, [s], SongLive);
    assert [g][..0] == [] && [s][..0] == [];
  }
}
