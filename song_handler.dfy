/** The song handlers (song_handler.go): response formatting with the lyrics
    display fallback, formatBulkSongs and its per-call group cache, the two
    list paths of GetAllSongs, the verse pages of GetSongVerses, and the
    lyrics handling of CreateSong and UpdateSong. */
module SongHandler {
  import opened Wrappers
  import opened Text
  import opened Seqs
  import opened Lyrics
  import opened Models
  import opened Queries
  import opened Pagination
  import opened Database

  /** GroupData. */
  datatype GroupData = GroupData(id: Uuid, name: String, createdAt: Timestamp, updatedAt: Timestamp)

  /** SongResponse: the song with its group embedded and its lyrics as text. */
  datatype SongResponse = SongResponse(
    id: Uuid,
    group: GroupData,
    title: String,
    runtime: Int32,
    lyrics: String,
    releaseDate: Timestamp,
    link: String,
    createdAt: Timestamp,
    updatedAt: Timestamp)

  function Respond(row: SongListRow, lyrics: String, g: GroupRow): SongResponse {
    SongResponse(row.id, GroupData(g.id, g.name, g.createdAt, g.updatedAt), row.title, row.runtime,
                 lyrics, row.releaseDate, row.link, row.createdAt, row.updatedAt)
  }

  /** One song formatted as formatSong and each formatBulkSongs iteration do
      it: decode the lyrics, then look the group up. */
  function FormatRow(row: SongListRow, groups: seq<GroupRow>): (r: Result<SongResponse>)
    ensures r.Ok? <==> row.lyrics.Json? && GetGroup(groups, row.groupId).Ok?
    ensures r.Err? ==> r.error == if row.lyrics.Unparsable? then MalformedDocument else NotFound
    ensures r.Ok? ==>
      && r.value.id == row.id && r.value.title == row.title && r.value.runtime == row.runtime
      && r.value.releaseDate == row.releaseDate && r.value.link == row.link
      && r.value.createdAt == row.createdAt && r.value.updatedAt == row.updatedAt
      && r.value.lyrics == Display(row.lyrics.doc)
      && var g := GetGroup(groups, row.groupId).value;
         r.value.group == GroupData(g.id, g.name, g.createdAt, g.updatedAt)
  {
    match Decode(row.lyrics)
    case Err(e) => Err(e)
    case Ok(doc) =>
      match GetGroup(groups, row.groupId)
      case Err(e) => Err(e)
      case Ok(g) => Ok(Respond(row, Display(doc), g))
  }

  /** formatSong, for a full songs row: the song's own columns, its group's
      columns and its lyrics as displayed, or the first step's error. */
  function FormatSong(song: SongRow, groups: seq<GroupRow>): (r: Result<SongResponse>)
    ensures r.Ok? <==> song.lyrics.Json? && GetGroup(groups, song.groupId).Ok?
    ensures r.Err? ==> r.error == if song.lyrics.Unparsable? then MalformedDocument else NotFound
    ensures r.Ok? ==>
      && r.value.id == song.id && r.value.title == song.title && r.value.runtime == song.runtime
      && r.value.releaseDate == song.releaseDate && r.value.link == song.link
      && r.value.createdAt == song.createdAt && r.value.updatedAt == song.updatedAt
      && r.value.lyrics == Display(song.lyrics.doc)
      && var g := GetGroup(groups, song.groupId).value;
         r.value.group == GroupData(g.id, g.name, g.createdAt, g.updatedAt)
  {
    FormatRow(ListSong(song), groups)
  }

  /** The GetSong handler: getSong (deleted or not), then formatSong. */
  function GetSongResponse(songs: seq<SongRow>, groups: seq<GroupRow>, id: Uuid): (r: Result<SongResponse>)
    ensures GetSong(songs, id).Err? ==> r == Err(NotFound)
    ensures GetSong(songs, id).Ok? ==> r == FormatSong(GetSong(songs, id).value, groups)
    ensures r.Ok? ==> r.value.id == id
  {
    match GetSong(songs, id)
    case Err(e) => Err(NotFound)
    case Ok(song) => FormatSong(song, groups)
  }

  // ------------------------------------------------------ formatBulkSongs

  /** formatRow over a fixed groups table. */
  function Formatter(groups: seq<GroupRow>): SongListRow -> Result<SongResponse> {
    row => FormatRow(row, groups)
  }

  /** What formatBulkSongs returns: every row formatted, in input order, or
      the error of the first row that fails. */
  function FormatBulk(rows: seq<SongListRow>, groups: seq<GroupRow>): Result<seq<SongResponse>> {
    Traverse(rows, Formatter(groups))
  }

  /** Row i is the first row that fails to format. */
  ghost predicate FirstFailure(rows: seq<SongListRow>, groups: seq<GroupRow>, i: nat) {
    i < |rows| && FormatRow(rows[i], groups).Err?
    && forall k :: 0 <= k < i ==> FormatRow(rows[k], groups).Ok?
  }

  /** formatBulkSongs succeeds exactly when every row formats, and then gives
      one response per row, in input order. */
  lemma FormatBulkOk(rows: seq<SongListRow>, groups: seq<GroupRow>)
    ensures FormatBulk(rows, groups).Ok? <==> forall k :: 0 <= k < |rows| ==> FormatRow(rows[k], groups).Ok?
    ensures FormatBulk(rows, groups).Ok? ==> |FormatBulk(rows, groups).value| == |rows|
    ensures FormatBulk(rows, groups).Ok? ==>
      forall k :: 0 <= k < |rows| ==> FormatBulk(rows, groups).value[k] == FormatRow(rows[k], groups).value
  {
    TraverseOk(rows, Formatter(groups));
  }

  /** When formatBulkSongs fails, it reports the error of the first row that
      fails to format. */
  lemma FormatBulkErr(rows: seq<SongListRow>, groups: seq<GroupRow>)
    requires FormatBulk(rows, groups).Err?
    ensures exists i: nat :: FirstFailure(rows, groups, i) && FormatBulk(rows, groups).error == FormatRow(rows[i], groups).error
  {
    TraverseErr(rows, Formatter(groups));
    var i: nat :| FirstError(rows, Formatter(groups), i) && FormatBulk(rows, groups).error == Formatter(groups)(rows[i]).error;
    assert FirstFailure(rows, groups, i);
  }

  /** The group ids of the rows, in row order. */
  function GroupIds(rows: seq<SongListRow>): seq<Uuid> {
    Map(rows, (row: SongListRow) => row.groupId)
  }

  /** The group ids formatBulkSongs looks up, in call order: a row is looked
      up when every row before it formatted, its lyrics decode, and no earlier
      row looked its group up (the cache holds exactly those groups). */
  ghost function LookupTrace(rows: seq<SongListRow>, groups: seq<GroupRow>): seq<Uuid> {
    if rows == [] then []
    else
      var init := rows[..|rows| - 1];
      if FormatBulk(init, groups).Err? then LookupTrace(init, groups)
      else Looked(LookupTrace(init, groups), rows[|rows| - 1])
  }

  /** The look-ups after one more row, given those before it: the row's group
      is fetched when its lyrics decode and the cache does not hold it. */
  ghost function Looked(seen: seq<Uuid>, row: SongListRow): seq<Uuid> {
    if row.lyrics.Unparsable? || row.groupId in seen then seen else seen + [row.groupId]
  }

  /** No group is looked up twice, and only groups of the rows are looked up. */
  lemma {:induction false} LookupTraceDistinct(rows: seq<SongListRow>, groups: seq<GroupRow>)
    ensures NoDuplicates(LookupTrace(rows, groups))
    ensures forall x :: x in LookupTrace(rows, groups) ==> x in GroupIds(rows)
  {
    if rows != [] {
      var n := |rows| - 1;
      LookupTraceDistinct(rows[..n], groups);
      GroupIdsPrefix(rows, n);
      LookedKeeps(LookupTrace(rows[..n], groups), rows[n]);
    }
  }

  lemma GroupIdsPrefix(rows: seq<SongListRow>, n: nat)
    requires n < |rows|
    ensures GroupIds(rows[..n]) == GroupIds(rows)[..n]
    ensures GroupIds(rows)[n] == rows[n].groupId
  {
  }

  lemma LookedKeeps(seen: seq<Uuid>, row: SongListRow)
    requires NoDuplicates(seen)
    ensures NoDuplicates(Looked(seen, row))
    ensures forall x :: x in Looked(seen, row) ==> x in seen || x == row.groupId
  {
  }

  /** When formatting succeeds, the lookups are exactly the distinct group
      ids of the rows, each at its first occurrence. */
  lemma {:induction false} LookupTraceOnSuccess(rows: seq<SongListRow>, groups: seq<GroupRow>)
    requires FormatBulk(rows, groups).Ok?
    ensures LookupTrace(rows, groups) == Distinct(GroupIds(rows))
  {
    if rows != [] {
      var n := |rows| - 1;
      var init := rows[..n];
      assert FormatBulk(init, groups).Ok?;
      LookupTraceOnSuccess(init, groups);
      GroupIdsPrefix(rows, n);
      assert FormatRow(rows[n], groups).Ok?;
    }
  }

  /** So a successful formatBulkSongs makes one getGroup call per distinct
      group among the rows, and no more. */
  lemma LookupCount(rows: seq<SongListRow>, groups: seq<GroupRow>)
    requires FormatBulk(rows, groups).Ok?
    ensures |LookupTrace(rows, groups)| == |set x: Uuid | x in GroupIds(rows)|
  {
    var ids := GroupIds(rows);
    LookupTraceOnSuccess(rows, groups);
    DistinctCard(ids);
  }

  /** After the first failure nothing changes: neither the result nor the lookups. */
  lemma {:induction false} AbortKeeps(rows: seq<SongListRow>, groups: seq<GroupRow>, k: nat)
    requires k <= |rows| && FormatBulk(rows[..k], groups).Err?
    ensures FormatBulk(rows, groups) == FormatBulk(rows[..k], groups)
    ensures LookupTrace(rows, groups) == LookupTrace(rows[..k], groups)
    decreases |rows| - k
  {
    if k < |rows| {
      var n := |rows| - 1;
      assert rows[..n][..k] == rows[..k];
      AbortKeeps(rows[..n], groups, k);
      AbortStep(rows, groups);
    } else {
      assert rows[..k] == rows;
    }
  }

  lemma AbortStep(rows: seq<SongListRow>, groups: seq<GroupRow>)
    requires rows != [] && FormatBulk(rows[..|rows| - 1], groups).Err?
    ensures FormatBulk(rows, groups) == FormatBulk(rows[..|rows| - 1], groups)
    ensures LookupTrace(rows, groups) == LookupTrace(rows[..|rows| - 1], groups)
  {
  }

  /** One more row after rows that all formatted: the bulk result and the
      look-ups both grow by that row's share. */
  lemma BulkStep(rows: seq<SongListRow>, groups: seq<GroupRow>, i: nat)
    requires i < |rows| && FormatBulk(rows[..i], groups).Ok?
    ensures var row := rows[i];
      && FormatBulk(rows[..i + 1], groups) ==
           (if FormatRow(row, groups).Ok? then Ok(FormatBulk(rows[..i], groups).value + [FormatRow(row, groups).value])
            else Err(FormatRow(row, groups).error))
      && LookupTrace(rows[..i + 1], groups) == Looked(LookupTrace(rows[..i], groups), row)
  {
    assert rows[..i + 1][..i] == rows[..i] && rows[..i + 1][i] == rows[i];
  }

  /** The cache holds exactly the groups looked up so far, as getGroup gave them. */
  ghost predicate Caches(cache: map<Uuid, GroupRow>, seen: seq<Uuid>, groups: seq<GroupRow>) {
    && (forall id :: id in cache <==> id in seen)
    && (forall id :: id in cache ==> GetGroup(groups, id) == Ok(cache[id]))
  }

  /** One iteration of formatBulkSongs: decode the lyrics, take the group from
      the cache or fetch it and cache it, and build the response. */
  method FormatOne(store: Store, row: SongListRow, cache: map<Uuid, GroupRow>, ghost seen: seq<Uuid>)
    returns (r: Result<SongResponse>, cache': map<Uuid, GroupRow>)
    requires Caches(cache, seen, store.groups)
    modifies store`lookupLog
    ensures r == FormatRow(row, store.groups)
    ensures store.lookupLog == old(store.lookupLog) + (Looked(seen, row)[|seen|..])
    ensures r.Ok? ==> Caches(cache', Looked(seen, row), store.groups)
  {
    cache' := cache;
    var decoded := Decode(row.lyrics);
    if decoded.Err? {
      assert Looked(seen, row)[|seen|..] == [];
      return Err(decoded.error), cache';
    }
    var lyrics := Display(decoded.value);
    var group: GroupRow;
    if row.groupId in cache {
      group := cache[row.groupId];
      assert Looked(seen, row)[|seen|..] == [];
    } else {
      var fetched := store.FetchGroup(row.groupId);
      assert Looked(seen, row)[|seen|..] == [row.groupId];
      if fetched.Err? {
        return Err(fetched.error), cache';
      }
      group := fetched.value;
      cache' := cache[row.groupId := group];
    }
    r := Ok(Respond(row, lyrics, group));
  }

  /** formatBulkSongs: the loop over the rows with the group cache. */
  method FormatBulkSongs(store: Store, rows: seq<SongListRow>) returns (r: Result<seq<SongResponse>>)
    modifies store`lookupLog
    ensures r == FormatBulk(rows, store.groups)
    ensures store.lookupLog == old(store.lookupLog) + LookupTrace(rows, store.groups)
  {
    var formatted: seq<SongResponse> := [];
    var cache: map<Uuid, GroupRow> := map[];
    ghost var groups := store.groups;
    ghost var log0 := store.lookupLog;
    ghost var seen: seq<Uuid> := [];
    for i := 0 to |rows|
      invariant store.groups == groups
      invariant BulkState(rows, groups, i, formatted, seen, cache)
      invariant store.lookupLog == log0 + seen
    {
      var one, cache' := FormatOne(store, rows[i], cache, seen);
      BulkAdvance(rows, groups, i, formatted, seen, cache, one, cache');
      LookedExtends(seen, rows[i]);
      seen := Looked(seen, rows[i]);
      if one.Err? {
        return Err(one.error);
      }
      formatted := formatted + [one.value];
      cache := cache';
    }
    assert rows[..|rows|] == rows;
    r := Ok(formatted);
  }

  /** What formatBulkSongs holds after the first i rows: they all formatted,
      their look-ups are done, and the cache holds exactly those groups. */
  ghost predicate BulkState(rows: seq<SongListRow>, groups: seq<GroupRow>, i: nat,
                            formatted: seq<SongResponse>, seen: seq<Uuid>, cache: map<Uuid, GroupRow>) {
    && i <= |rows|
    && FormatBulk(rows[..i], groups) == Ok(formatted)
    && seen == LookupTrace(rows[..i], groups)
    && Caches(cache, seen, groups)
  }

  /** One row more: on success the state moves to i + 1; on failure the result
      and the look-ups are final. */
  lemma BulkAdvance(rows: seq<SongListRow>, groups: seq<GroupRow>, i: nat,
                    formatted: seq<SongResponse>, seen: seq<Uuid>, cache: map<Uuid, GroupRow>,
                    one: Result<SongResponse>, cache': map<Uuid, GroupRow>)
    requires i < |rows| && BulkState(rows, groups, i, formatted, seen, cache)
    requires one == FormatRow(rows[i], groups)
    requires one.Ok? ==> Caches(cache', Looked(seen, rows[i]), groups)
    ensures one.Ok? ==> BulkState(rows, groups, i + 1, formatted + [one.value], Looked(seen, rows[i]), cache')
    ensures one.Err? ==> FormatBulk(rows, groups) == Err(one.error) && LookupTrace(rows, groups) == Looked(seen, rows[i])
  {
    BulkStep(rows, groups, i);
    if one.Err? {
      AbortKeeps(rows, groups, i + 1);
    }
  }

  lemma LookedExtends(seen: seq<Uuid>, row: SongListRow)
    ensures |seen| <= |Looked(seen, row)|
    ensures Looked(seen, row) == seen + Looked(seen, row)[|seen|..]
  {
  }

  // ---------------------------------------------------------- GetAllSongs

  /** The JSON body of GetAllSongs: data, page, limit, pages, total. */
  datatype SongsPage = SongsPage(data: seq<SongResponse>, page: int, limit: int, pages: nat, total: nat)

  /** The filtered statements are used exactly when a filter is given. */
  predicate Filtered(groupFilter: String, titleFilter: String) {
    groupFilter != [] || titleFilter != []
  }

  /** The rows GetAllSongs fetches for one page. */
  function ListedRows(groups: seq<GroupRow>, songs: seq<SongRow>, page: int, limit: int,
                      groupFilter: String, titleFilter: String): seq<SongListRow>
    requires page >= 1 && limit >= 1
  {
    if Filtered(groupFilter, titleFilter)
    then SongsWithFilters(groups, songs, limit, Offset(page, limit), groupFilter, titleFilter)
    else SongsWithPagination(songs, limit, Offset(page, limit))
  }

  /** The total GetAllSongs reports. */
  function ListedTotal(groups: seq<GroupRow>, songs: seq<SongRow>, groupFilter: String, titleFilter: String): nat {
    if Filtered(groupFilter, titleFilter)
    then SongsCountWithFilters(groups, songs, groupFilter, titleFilter)
    else SongsCount(songs)
  }

  /** A page never holds more rows than the limit or than the total, and it is
      empty exactly when its number is past the page count. */
  lemma ListedPageShape(groups: seq<GroupRow>, songs: seq<SongRow>, page: int, limit: int, gf: String, tf: String)
    requires page >= 1 && limit >= 1
    ensures var rows := ListedRows(groups, songs, page, limit, gf, tf);
      var total := ListedTotal(groups, songs, gf, tf);
      && |rows| <= limit && |rows| <= total
      && (rows == [] <==> page > PageCount(total, limit))
  {
    OffsetInRange(page, limit, ListedTotal(groups, songs, gf, tf));
  }

  /** GetAllSongs: resolve page and limit, choose the statement pair by the
      filters, fetch the page and the total, and format the page. */
  method GetAllSongs(store: Store, pageQ: Option<int>, limitQ: Option<int>, groupFilter: String, titleFilter: String)
    returns (r: Result<SongsPage>)
    modifies store`lookupLog
    ensures var page, limit := ResolvePage(pageQ), ResolveLimit(limitQ);
      var rows := ListedRows(store.groups, store.songs, page, limit, groupFilter, titleFilter);
      var total := ListedTotal(store.groups, store.songs, groupFilter, titleFilter);
      && (r.Ok? <==> FormatBulk(rows, store.groups).Ok?)
      && (r.Err? ==> r.error == FormatBulk(rows, store.groups).error)
      && (r.Ok? ==> r.value == SongsPage(FormatBulk(rows, store.groups).value, page, limit, PageCount(total, limit), total))
    ensures store.lookupLog == old(store.lookupLog) + LookupTrace(
      ListedRows(store.groups, store.songs, ResolvePage(pageQ), ResolveLimit(limitQ), groupFilter, titleFilter), store.groups)
  {
    var page := ResolvePage(pageQ);
    var limit := ResolveLimit(limitQ);
    var offset := Offset(page, limit);
    var rows: seq<SongListRow>;
    var total: nat;
    if groupFilter != [] || titleFilter != [] {
      rows := SongsWithFilters(store.groups, store.songs, limit, offset, groupFilter, titleFilter);
      total := SongsCountWithFilters(store.groups, store.songs, groupFilter, titleFilter);
    } else {
      rows := SongsWithPagination(store.songs, limit, offset);
      total := SongsCount(store.songs);
    }
    var pages := PageCount(total, limit);
    var formatted := FormatBulkSongs(store, rows);
    if formatted.Err? {
      return Err(formatted.error);
    }
    r := Ok(SongsPage(formatted.value, page, limit, pages, total));
  }

  // -------------------------------------------------------- GetSongVerses

  /** The verses response of GetSongVerses: the song's id and its page of verses. */
  datatype SongVerses = SongVerses(songId: Uuid, slice: VersePage)

  /** GetSongVerses: look the song up (deleted or not), decode its lyrics and
      slice the page of verses. */
  function GetSongVerses(songs: seq<SongRow>, id: Uuid, pageQ: Option<int>, limitQ: Option<int>): (r: Result<SongVerses>)
    ensures r.Ok? <==> GetSong(songs, id).Ok? && GetSong(songs, id).value.lyrics.Json?
    ensures r.Err? ==> r.error == if GetSong(songs, id).Err? then NotFound else MalformedDocument
    ensures r.Ok? ==> r.value.songId == id
    ensures r.Ok? ==> r.value.slice.page >= 1 && r.value.slice.limit >= 1
    ensures r.Ok? ==> r.value.slice.total == |GetSong(songs, id).value.lyrics.doc.verses|
    ensures r.Ok? ==>
      r.value.slice == SliceVerses(GetSong(songs, id).value.lyrics.doc.verses, ResolvePage(pageQ), ResolveLimit(limitQ))
  {
    var page := ResolvePage(pageQ);
    var limit := ResolveLimit(limitQ);
    match GetSong(songs, id)
    case Err(e) => Err(NotFound)
    case Ok(song) =>
      match Decode(song.lyrics)
      case Err(e) => Err(e)
      case Ok(doc) => Ok(SongVerses(song.id, SliceVerses(doc.verses, page, limit)))
  }

  /** For lyrics stored by ParseLyrics, the verse pages hold the non-blank
      trimmed lines of the submitted text: a page is empty exactly when it is
      past the page count, and the pages 1 .. pages together give every verse
      once, in order. */
  lemma StoredVersePages(songs: seq<SongRow>, id: Uuid, raw: String, pageQ: Option<int>, limitQ: Option<int>)
    requires GetSong(songs, id).Ok? && GetSong(songs, id).value.lyrics == Json(Encode(raw))
    ensures var r := GetSongVerses(songs, id, pageQ, limitQ);
      && r.Ok?
      && r.value.slice.total == |Verses(Lines(raw))| <= Count(raw, '\n') + 1
      && (r.value.slice.verses == [] <==> r.value.slice.page > r.value.slice.pages)
      && VersePages(Verses(Lines(raw)), r.value.slice.limit, r.value.slice.pages) == Verses(Lines(raw))
  {
    var r := GetSongVerses(songs, id, pageQ, limitQ);
    var vs := Verses(Lines(raw));
    SliceEmptyIff(vs, r.value.slice.page, r.value.slice.limit);
    VersePagesCover(vs, r.value.slice.limit);
  }

  // ------------------------------------------------ CreateSong, UpdateSong

  /** The lyrics bytes UpdateSong writes: a non-empty submission is encoded
      afresh; an empty one keeps the stored bytes, which needs the song. */
  function UpdatedLyrics(songs: seq<SongRow>, id: Uuid, submitted: String): (r: Result<StoredLyrics>)
    ensures submitted != [] ==> r == Ok(Json(Encode(submitted)))
    ensures submitted == [] ==>
      if GetSong(songs, id).Ok? then r == Ok(GetSong(songs, id).value.lyrics) else r == Err(NotFound)
  {
    if submitted != [] then Ok(Json(Encode(submitted)))
    else
      match GetSong(songs, id)
      case Err(e) => Err(NotFound)
      case Ok(song) => Ok(song.lyrics)
  }

  /** Updating with no lyrics leaves the song's lyrics exactly as stored, even
      bytes that do not decode; updating with lyrics makes them display as
      submitted. */
  lemma UpdateLyricsEffect(songs: seq<SongRow>, k: nat, submitted: String,
                           groupId: Uuid, title: String, runtime: Int32, releaseDate: Timestamp, link: String)
    requires UniqueSongIds(songs) && k < |songs|
    ensures var id := songs[k].id;
      var stored := UpdatedLyrics(songs, id, submitted);
      && stored.Ok?
      && var after := UpdateSongRows(songs, id, SongFields(groupId, title, runtime, stored.value, releaseDate, link));
         && (submitted == [] ==> after[k].lyrics == songs[k].lyrics)
         && (submitted != [] ==> after[k].lyrics.Json? && Display(after[k].lyrics.doc) == submitted)
  {
    GetSongFinds(songs, k);
    DisplayRoundTrip(submitted);
  }

  /** UpdateSong: resolve the lyrics bytes, then run updateSong. */
  method UpdateSong(store: Store, id: Uuid, groupId: Uuid, title: String, runtime: Int32,
                    lyrics: String, releaseDate: Timestamp, link: String) returns (r: Outcome)
    requires store.Valid()
    modifies store`songs
    ensures store.Valid()
    ensures var stored := UpdatedLyrics(old(store.songs), id, lyrics);
      && (r.Pass? <==> stored.Ok?)
      && (r.Fail? ==> r.error == NotFound && store.songs == old(store.songs))
      && (r.Pass? ==> (store.songs ==
           UpdateSongRows(old(store.songs), id, SongFields(groupId, title, runtime, stored.value, releaseDate, link))))
  {
    var stored: StoredLyrics;
    if lyrics != [] {
      stored := ParseLyrics(lyrics);
    } else {
      var song := GetSong(store.songs, id);
      if song.Err? {
        return Fail(NotFound);
      }
      stored := song.value.lyrics;
    }
    store.UpdateSong(id, SongFields(groupId, title, runtime, stored, releaseDate, link));
    r := Pass;
  }

  /** CreateSong: encode the lyrics, then run createSong. */
  method CreateSong(store: Store, id: Uuid, now: Timestamp, groupId: Uuid, title: String, runtime: Int32,
                    lyrics: String, releaseDate: Timestamp, link: String) returns (r: Outcome)
    requires store.Valid()
    modifies store`songs
    ensures store.Valid()
    ensures r.Pass? <==> GetSong(old(store.songs), id).Err?
    ensures r.Pass? ==>
      store.songs == old(store.songs) + [NewSong(id, SongFields(groupId, title, runtime, Json(Encode(lyrics)), releaseDate, link), now)]
    ensures r.Fail? ==> store.songs == old(store.songs)
  {
    var stored := ParseLyrics(lyrics);
    r := store.CreateSong(id, SongFields(groupId, title, runtime, stored, releaseDate, link), now);
  }

  /** A created song displays exactly the submitted lyrics, "" included,
      once its group exists. */
  lemma CreatedSongDisplays(groups: seq<GroupRow>, id: Uuid, now: Timestamp, groupId: Uuid, title: String,
                            runtime: Int32, lyrics: String, releaseDate: Timestamp, link: String)
    requires GetGroup(groups, groupId).Ok?
    ensures var song := NewSong(id, SongFields(groupId, title, runtime, Json(Encode(lyrics)), releaseDate, link), now);
      FormatSong(song, groups).Ok? && FormatSong(song, groups).value.lyrics == lyrics
  {
    DisplayRoundTrip(lyrics);
  }

  /** A song inserted under a free id is what GetSong then returns: its id,
      and exactly the submitted lyrics, once its group exists. */
  lemma CreateThenGet(songs: seq<SongRow>, groups: seq<GroupRow>, id: Uuid, now: Timestamp, groupId: Uuid,
                      title: String, runtime: Int32, lyrics: String, releaseDate: Timestamp, link: String)
    requires GetSong(songs, id).Err? && GetGroup(groups, groupId).Ok?
    ensures var song := NewSong(id, SongFields(groupId, title, runtime, Json(Encode(lyrics)), releaseDate, link), now);
      var r := GetSongResponse(songs + [song], groups, id);
      r.Ok? && r.value.id == id && r.value.title == title && r.value.lyrics == lyrics
  {
    var song := NewSong(id, SongFields(groupId, title, runtime, Json(Encode(lyrics)), releaseDate, link), now);
    var all := songs + [song];
    forall i | 0 <= i < |all| && i != |songs| ensures all[i].id != id {
      assert all[i] == songs[i];
    }
    FindUnique(all, (s: SongRow) => s.id == id, |songs|);
    assert GetSong(all, id) == Ok(song);
    DisplayRoundTrip(lyrics);
  }
}
