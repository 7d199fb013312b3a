# music-service catalog core, in Dafny

This project models the core of a Go service that catalogues music groups and their songs. The service is backed by Postgres through generated sqlc code. The model covers four parts:

- **The lyrics codec.** `ParseLyrics` turns submitted lyrics into the stored document `{text, verses}`. The response formatters decode that document for display. Both are in `lyrics.dfy`, and the Go string helpers they rely on are in `text.dfy`.
- **Pagination.** This covers page and limit defaults, the offset and total-pages arithmetic, and the verse slicing of `GetSongVerses`. It lives in `pagination.dfy`, with the `GetGroups` handler in `group_handler.dfy`.
- **The song handlers** (`song_handler.dfy`):
  - `formatSong`;
  - `formatBulkSongs`, with its per-call group cache;
  - the two query paths of `GetAllSongs`;
  - `GetSongVerses`;
  - the lyrics handling of `CreateSong` and `UpdateSong`.
- **The SQL statements of `query.sql.go`,** stated over the contents of the `groups` and `songs` tables (`models.dfy`, `queries.dfy`):
  - the reads are pure functions: look-ups, live counts, lists ordered by `created_at` descending and windowed by `LIMIT`/`OFFSET`, and the join-plus-filter statements;
  - the writes are methods of the `Database.Store` class, which holds both tables and changes them in place (`store.dfy`);
  - the laws relating the statements to one another are in `query_laws.dfy`.

Generic sequence operations are in `seqs.dfy`: find, map, filter, a stable descending insertion sort, a window and first-occurrence de-duplication. The Option and Result types are in `wrappers.dfy`.

The group look-up that `formatBulkSongs` calls is `Database.Store.FetchGroup`. It appends every id it is asked for to a ghost log. That log lets the model state how many look-ups a call makes.

Where the code and its documentation differ, the model follows the code:
- `getGroup` and `getSong` have no `deleted_at` condition, so soft-deleted rows are still found.
- `updateGroup` and `updateSong` leave `updated_at` alone.
- Only the filtered song statements join `groups`. A song whose group row is missing is therefore left out of the filtered list and count, but not out of the unfiltered ones.

## Model

| member | source | states |
|---|---|---|
| Text.Split | internal/pkg/utils/parser/lyrics_parser.go:9 | `strings.Split` on `"\n"` gives one line per newline plus one, and no line holds a newline |
| Text.JoinSplit | internal/pkg/utils/parser/lyrics_parser.go:9 | joining the split lines with `"\n"` gives back the text |
| Text.SplitJoin | internal/pkg/utils/parser/lyrics_parser.go:9 | splitting lines without line feeds after joining them gives back the lines |
| Text.TrimShape | internal/pkg/utils/parser/lyrics_parser.go:13 | the trimmed line occurs inside the line with only white space before and after it, has no white space at either end, and is empty exactly when the line is all white space |
| Text.TrimIdempotent | internal/pkg/utils/parser/lyrics_parser.go:13 | trimming twice is trimming once |
| Text.ReplaceCRLFKeeps | internal/pkg/utils/parser/lyrics_parser.go:9 | CRLF normalisation keeps every line feed and keeps whether the text is blank |
| Lyrics.Decode | internal/api/handlers/song_handler.go:493 | unmarshalling succeeds exactly on a stored document and gives it back; otherwise it fails with a malformed-document error |
| Lyrics.Verses | internal/pkg/utils/parser/lyrics_parser.go:11-17 | each line gives at most one verse, so there are never more verses than lines |
| Lyrics.Encode | internal/pkg/utils/parser/lyrics_parser.go:8-25 | the stored document keeps the raw input verbatim as its text, and has at most one verse per line feed plus one |
| Lyrics.Display | internal/api/handlers/song_handler.go:448-451 | a document with text displays that text; a document with empty text displays its verses joined by `"\n"` (the same rule appears at lines 497-500) |
| Lyrics.Lines | internal/pkg/utils/parser/lyrics_parser.go:9 | the lines iterated over number one more than the line feeds of the input |
| Lyrics.ParseLyrics | internal/pkg/utils/parser/lyrics_parser.go:8-28 | the loop stores the document whose `text` is the raw input verbatim and whose verses are the trimmed non-blank lines in order |
| Lyrics.VersesAppend | internal/pkg/utils/parser/lyrics_parser.go:11-17 | verses are computed line by line, so they distribute over concatenation of lines |
| Lyrics.VerseOfLine | internal/pkg/utils/parser/lyrics_parser.go:11-17 | every non-blank line gives a verse, its trimmed form, placed after the verses of the lines before it |
| Lyrics.LineOfVerse | internal/pkg/utils/parser/lyrics_parser.go:13-15 | every verse is the trimmed form of some non-blank input line |
| Lyrics.VersesNonEmpty | internal/pkg/utils/parser/lyrics_parser.go:14 | no verse is empty |
| Lyrics.EncodeVerseShape | internal/pkg/utils/parser/lyrics_parser.go:9-15 | every verse is non-empty, holds no line feed and has no white space at either end |
| Lyrics.BlankIffNoVerses | internal/pkg/utils/parser/lyrics_parser.go:11-17 | input that is empty or only white space yields no verses, and only such input does |
| Lyrics.VersesIgnoreCRLF | internal/pkg/utils/parser/lyrics_parser.go:9 | splitting after CRLF normalisation gives the same verses as splitting on line feeds alone |
| Lyrics.CRLFEquivalent | internal/pkg/utils/parser/lyrics_parser.go:9 | replacing every `"\r\n"` of the input by `"\n"` beforehand yields the same verses |
| Lyrics.DisplayRoundTrip | internal/api/handlers/song_handler.go:448-451 | displaying the stored document gives back exactly the submitted text, `""` included |
| Lyrics.VersesOfVerses | internal/pkg/utils/parser/lyrics_parser.go:13-15 | verses are a fixed point: re-parsing a list of verses gives the same list |
| Lyrics.LegacyDocReencodes | internal/api/handlers/song_handler.go:448-451 | a document with empty `text` displays as its verses joined by `"\n"`, and encoding that display gives back the same verses |
| Seqs.Find | internal/storage/database/query.sql.go:74-90 | `LIMIT 1` returns a row satisfying the condition, or nothing when no row does |
| Seqs.SortDesc | internal/storage/database/query.sql.go:104-145 | `ORDER BY ... DESC` gives a descending permutation of its input |
| Seqs.TraverseOk | internal/api/handlers/song_handler.go:486-538 | a loop that stops at the first failing element succeeds exactly when every element succeeds, and then returns one result per element, in order |
| Seqs.TraverseErr | internal/api/handlers/song_handler.go:486-538 | such a loop, when it fails, returns the error of the first failing element |
| Seqs.Window | internal/storage/database/query.sql.go:104-145 | `LIMIT`/`OFFSET` gives `min(limit, n - offset)` rows, the rows from `offset` on, in order |
| Pagination.Resolve | internal/api/handlers/song_handler.go:171-179 | a missing, non-numeric or below-1 value becomes the default; a valid value is kept; the result is at least 1 |
| Pagination.ResolveEcho | internal/api/handlers/group_handler.go:104-110 | sending back the echoed page or limit resolves to the same value |
| Pagination.OffsetIsMultiple | internal/api/handlers/song_handler.go:181 | `offset = (page-1)*limit` is a non-negative multiple of `limit` with quotient `page-1` |
| Pagination.PageCountIsCeiling | internal/api/handlers/song_handler.go:219 | `(total+limit-1)/limit` is the ceiling of `total/limit` and is 0 exactly when total is 0 |
| Pagination.OffsetInRange | internal/api/handlers/song_handler.go:290-293 | a page starts inside the rows exactly when its number is at most the page count |
| Pagination.SliceVerses | internal/api/handlers/song_handler.go:287-309 | the verse page echoes page and limit, reports the total and page count, and holds the window of verses at the offset |
| Pagination.SliceEmptyIff | internal/api/handlers/song_handler.go:293-303 | a verse page is empty exactly when its number is past the page count, and it still reports total and pages |
| Pagination.SliceContents | internal/api/handlers/song_handler.go:305-309 | a page in range holds `min(limit, total-start)` verses, contiguous and in original order |
| Pagination.PagesCover | internal/api/handlers/song_handler.go:219 | reading pages 1 .. pages in turn yields every element exactly once, in order |
| Pagination.VersePagesCover | internal/api/handlers/song_handler.go:287-309 | reading verse pages 1 .. pages gives back every verse exactly once, in order |
| Queries.GetGroup | internal/storage/database/query.sql.go:74-90 | the row found has the id and is in the table, deleted or not; not found means no row has the id |
| Queries.GetSong | internal/storage/database/query.sql.go:147-169 | the row found has the id and is in the table, deleted or not; not found means no row has the id |
| Queries.GetGroupFinds | internal/storage/database/query.sql.go:74-77 | with unique ids, getGroup returns exactly the row with that id |
| Queries.GetSongFinds | internal/storage/database/query.sql.go:147-151 | with unique ids, getSong returns exactly the row with that id |
| Queries.LiveGroupsByNewest | internal/storage/database/query.sql.go:104-108 | the live groups, as many as the live count, as a permutation sorted by `created_at` descending |
| Queries.LiveSongsByNewest | internal/storage/database/query.sql.go:313-317 | the live songs, as many as the live count, as a permutation sorted by `created_at` descending |
| Queries.GroupsCount | internal/storage/database/query.sql.go:92-102 | the live count is at most the table size; it equals the table size exactly when no group is deleted, and is 0 exactly when every group is deleted |
| Queries.SongsCount | internal/storage/database/query.sql.go:215-225 | the live count is at most the table size; it equals the table size exactly when no song is deleted, and is 0 exactly when every song is deleted |
| Queries.GroupsWithPagination | internal/storage/database/query.sql.go:104-145 | `min(limit, count-offset)` rows, the k-th being the live group at position `offset+k` of the newest-first order |
| Queries.SongsWithPagination | internal/storage/database/query.sql.go:313-364 | `min(limit, count-offset)` rows, the k-th being the live song at position `offset+k` of the newest-first order |
| Queries.GroupSongsByRelease | internal/storage/database/query.sql.go:171-176 | a group's live songs sorted by `release_date` descending, as a permutation of the live songs of that group |
| Queries.GroupSongsMembers | internal/storage/database/query.sql.go:171-176 | a row is in that ordering exactly when it is a live song of the group |
| Queries.SongsByGroup | internal/storage/database/query.sql.go:171-213 | `min(limit, n-offset)` rows, where `n` is the number of live songs of the group; the k-th row is the one at position `offset+k` of the release-date order |
| Queries.SongsByGroupRows | internal/storage/database/query.sql.go:171-213 | a group's page holds only live songs of that group, latest release first, at most `limit` of them; every live song of the group appears in the full ordering the page is cut from |
| Queries.JoinMembers | internal/storage/database/query.sql.go:250-252 | the join pairs each song exactly with the group rows whose id is its `group_id` |
| Queries.SongsCountWithFilters | internal/storage/database/query.sql.go:227-246 | the filtered count is at most the number of joined rows, and is 0 exactly when no joined row is live and passes both filters |
| Queries.FilteredByNewest | internal/storage/database/query.sql.go:248-257 | the filtered rows, as many as the filtered count, as a permutation sorted by `created_at` descending |
| Queries.SongsWithFilters | internal/storage/database/query.sql.go:248-311 | `min(limit, count-offset)` rows, the k-th being the counted row at position `offset+k` of the newest-first order |
| Queries.MarkDeleted | internal/storage/database/query.sql.go:53-57 | a live row gets `deleted_at = now`; a timestamp already there is kept |
| Queries.DeleteGroupRows | internal/storage/database/query.sql.go:53-62 | only the live row with the id gets `deleted_at = now`; every other column and every other row is unchanged |
| Queries.DeleteSongRows | internal/storage/database/query.sql.go:64-72 | only the live row with the id gets `deleted_at = now`; every other column and every other row is unchanged |
| Queries.UpdateGroupRows | internal/storage/database/query.sql.go:366-379 | rows with the id, deleted or not, get the new name; nothing else changes |
| Queries.UpdateSongRows | internal/storage/database/query.sql.go:381-413 | rows with the id, deleted or not, get the six written columns; id, timestamps and every other row are unchanged |
| QueryLaws.LikeFilterAt | internal/storage/database/query.sql.go:232-233 | a non-empty filter matches exactly when its lower-cased form occurs in the lower-cased value; the empty filter matches everything |
| QueryLaws.LikeFilterIgnoresCase | internal/storage/database/query.sql.go:253-254 | the case of neither the value nor the filter matters |
| QueryLaws.LikeFilterInfix | internal/storage/database/query.sql.go:253-254 | any piece of a value, used as a filter, matches that value |
| QueryLaws.LikeFilterTooLong | internal/storage/database/query.sql.go:253-254 | a filter longer than the value never matches it |
| QueryLaws.CountedIff | internal/storage/database/query.sql.go:227-234 | a song is counted with a group row exactly when the row carries its group_id and both filters match |
| QueryLaws.DanglingSongExcluded | internal/storage/database/query.sql.go:230-231 | a counted song has an existing group row, whose own `deleted_at` is not checked |
| QueryLaws.FetchWithinCount | internal/storage/database/query.sql.go:248-257 | the filtered fetch returns at most the filtered count of rows, each one of the counted rows |
| QueryLaws.FilteredPagesCover | internal/storage/database/query.sql.go:227-311 | reading all the pages the filtered count announces lists every counted row exactly once, newest first |
| QueryLaws.JoinProjectsSongs | internal/storage/database/query.sql.go:250-252 | with unique group ids and no dangling song, the join pairs every song with exactly one group, in order |
| QueryLaws.EmptyFiltersAgree | internal/storage/database/query.sql.go:227-311 | with empty filters and no dangling song, the filtered statements give the same count and page as the unfiltered ones |
| QueryLaws.DeleteGroupIdempotent | internal/storage/database/query.sql.go:53-57 | deleting again at any later time changes nothing and keeps the first timestamp |
| QueryLaws.DeleteSongIdempotent | internal/storage/database/query.sql.go:64-68 | deleting again at any later time changes nothing and keeps the first timestamp |
| QueryLaws.DeleteGroupCount | internal/storage/database/query.sql.go:92-95 | deleting lowers the live group count by one exactly when getGroup finds a live group with the id; otherwise the count stays |
| QueryLaws.DeleteSongCount | internal/storage/database/query.sql.go:215-218 | deleting lowers the live song count by one exactly when getSong finds a live song with the id; otherwise the count stays |
| QueryLaws.DeletedGroupStillFound | internal/storage/database/query.sql.go:74-77 | a soft-deleted group is still returned by getGroup, carrying its deletion time |
| QueryLaws.DeletedSongStillFound | internal/storage/database/query.sql.go:147-151 | a soft-deleted song is still returned by getSong, carrying its deletion time |
| QueryLaws.UpdateKeepsCounts | internal/storage/database/query.sql.go:366-391 | an update never changes which rows are live |
| QueryLaws.InsertCounts | internal/storage/database/query.sql.go:15-51 | inserting a fresh row raises the live count by one |
| Database.Store.CreateGroup | internal/storage/database/query.sql.go:15-24 | the insert succeeds exactly when the id is free, appending a live row stamped `now`; otherwise it fails with a key violation and changes nothing |
| Database.Store.CreateSong | internal/storage/database/query.sql.go:26-51 | the insert succeeds exactly when the id is free, appending a live row stamped `now`; otherwise it fails with a key violation and changes nothing |
| Database.Store.UpdateGroup | internal/storage/database/query.sql.go:366-379 | the groups table becomes its updated form and keys stay unique |
| Database.Store.UpdateSong | internal/storage/database/query.sql.go:381-413 | the songs table becomes its updated form and keys stay unique |
| Database.Store.DeleteGroup | internal/storage/database/query.sql.go:53-62 | the groups table becomes its soft-deleted form and keys stay unique |
| Database.Store.DeleteSong | internal/storage/database/query.sql.go:64-72 | the songs table becomes its soft-deleted form and keys stay unique |
| Database.Store.FetchGroup | internal/storage/database/query.sql.go:74-90 | returns getGroup's answer and logs the id looked up |
| GroupHandler.GetGroups | internal/api/handlers/group_handler.go:74-113 | page and limit are the resolved query values (at least 1); total is the live count; pages is `(total+limit-1)/limit`, the ceiling of `total/limit` (0 exactly when total is 0); the data are getGroupsWithPagination at offset `(page-1)*limit`, at most `limit` rows |
| GroupHandler.GetGroupsEcho | internal/api/handlers/group_handler.go:104-110 | the response echoes the resolved page and limit: asking again with them returns the same response |
| GroupHandler.GetGroupsEmptyIff | internal/api/handlers/group_handler.go:88-102 | a page is empty exactly when its number is past the page count |
| GroupHandler.GroupPagesCover | internal/api/handlers/group_handler.go:74-113 | reading pages 1 .. pages lists every live group exactly once, newest first, and no deleted group |
| SongHandler.FormatSong | internal/api/handlers/song_handler.go:438-479 | a songs row formats exactly when its lyrics decode and its group exists; the error is malformed for bad lyrics, otherwise not found; a success carries the row's own columns, its group's columns and the display form of its lyrics |
| SongHandler.GetSongResponse | internal/api/handlers/song_handler.go:129-152 | a song getSong does not find is not found; otherwise the response is formatSong of the row found, and carries the requested id |
| SongHandler.FormatRow | internal/api/handlers/song_handler.go:438-479 | formatting succeeds exactly when the lyrics decode and the group exists; the error is that of the first failing step; a success carries every column of the row, every column of its group and the display form of the lyrics (as each formatBulkSongs iteration builds it, lines 518-533) |
| SongHandler.FormatBulkOk | internal/api/handlers/song_handler.go:482-539 | the bulk result succeeds exactly when every row formats, and then holds one response per row, in input order |
| SongHandler.FormatBulkErr | internal/api/handlers/song_handler.go:487-516 | a failing bulk result carries the error of the first row that fails |
| SongHandler.AbortKeeps | internal/api/handlers/song_handler.go:493-516 | after the first failure neither the result nor the look-ups change |
| SongHandler.LookupTraceDistinct | internal/api/handlers/song_handler.go:506-516 | no group id is looked up twice, and only ids of the rows are looked up |
| SongHandler.LookupTraceOnSuccess | internal/api/handlers/song_handler.go:485-516 | on success, the look-ups are exactly the distinct group ids of the rows, in first-occurrence order |
| SongHandler.LookupCount | internal/api/handlers/song_handler.go:485-516 | on success, the number of look-ups equals the number of distinct group ids among the rows |
| SongHandler.FormatOne | internal/api/handlers/song_handler.go:487-535 | one pass of the loop returns that row's formatted response or error; getGroup is called exactly when the lyrics decode and the cache lacks the group; on success the cache still holds exactly the looked-up groups |
| SongHandler.BulkAdvance | internal/api/handlers/song_handler.go:486-538 | after a row formats, the loop state covers one more row; after a row fails, the bulk result is that row's error and no further look-up happens |
| SongHandler.FormatBulkSongs | internal/api/handlers/song_handler.go:482-539 | the cache loop returns the bulk result, and its calls to getGroup are exactly the look-up trace |
| SongHandler.ListedPageShape | internal/api/handlers/song_handler.go:181-219 | a page holds at most `limit` rows and at most the total, and is empty exactly when past the page count |
| SongHandler.GetAllSongs | internal/api/handlers/song_handler.go:164-236 | the filtered statements are used exactly when a filter is given; the response holds the formatted page, resolved page and limit, page count and total, or the formatting error |
| SongHandler.GetSongVerses | internal/api/handlers/song_handler.go:250-319 | a missing song is not found, undecodable lyrics are malformed; otherwise the response carries the song's id and exactly the verse page of the stored verses at the resolved page and limit (at least 1), with the stored verse count as total |
| SongHandler.StoredVersePages | internal/api/handlers/song_handler.go:287-309 | for lyrics stored by ParseLyrics, the total is at most the line feeds plus one, a page is empty exactly when past the page count, and the pages cover every verse once |
| SongHandler.UpdatedLyrics | internal/api/handlers/song_handler.go:369-384 | non-empty lyrics are encoded afresh; empty lyrics reuse the stored bytes, or the song is not found |
| SongHandler.UpdateLyricsEffect | internal/api/handlers/song_handler.go:369-384 | updating without lyrics leaves the stored lyrics bytes unchanged; updating with lyrics makes the song display them as submitted |
| SongHandler.UpdateSong | internal/api/handlers/song_handler.go:334-409 | fails with not found exactly when no lyrics were given and the song is missing; otherwise the songs table becomes its updated form |
| SongHandler.CreateSong | internal/api/handlers/song_handler.go:62-117 | the song is inserted with its lyrics encoded exactly when its id is free; otherwise nothing changes |
| SongHandler.CreatedSongDisplays | internal/api/handlers/song_handler.go:89 | a created song whose group exists displays exactly the submitted lyrics |
| SongHandler.CreateThenGet | internal/api/handlers/song_handler.go:89-152 | after a song is inserted under a free id, GetSong of that id returns it with its title and exactly the submitted lyrics |

## Left out

- JSON bytes: the lyrics column is modelled as either a stored document or bytes that do not decode. `encoding/json` marshalling is not modelled, and neither is a nil slice (the verses of blank input, the responses of an empty page) becoming `null`.
- Unicode: `TrimSpace` uses the white-space set of `unicode.IsSpace`. `LOWER` is ASCII lower-casing only, not Postgres' Unicode case mapping.
- `LIKE` wildcards and escapes: `%` and `_` inside a user filter are LIKE wildcards in Postgres, and backslash is LIKE's default escape character, so `\%` matches a literal `%` and a filter ending in a lone backslash makes the statement fail. The model treats a filter as a plain substring and has no such error.
- Ordering ties on `created_at` (and on `release_date` for a group's songs): the model resolves them stably, in storage order. Postgres promises no order among ties.
- `LIMIT 1` in getGroup and getSong picks the first row in storage order. This matters only when ids repeat, which the store's key invariant excludes.
- `NOW()` and the generated uuid are parameters (`now`, `id`) of the insert and delete methods. Ids are natural numbers; timestamps are integers.
- Integer widths: the `int32` casts of limit and offset, and overflow of `(page-1)*limit`, are not modelled. Page and limit are unbounded integers.
- HTTP plumbing is not modelled:
  - gin binding, status codes and response envelopes;
  - `uuid.Parse` of path and body ids, and the unreachable `uuid.Parse(song.GroupID.String())` failure inside the formatters;
  - `time.Parse`, which uses `constants.DateFormat` in CreateSong and RFC 3339 in UpdateSong.
- Database errors other than not-found and key violations (connection failures, foreign-key violations) are not modelled. The schema is not part of this model, so `Database.Store.CreateSong` does not check that the group exists.
- The services and repositories are one-line pass-throughs. `song_repository.go` returns a command tag where a song is expected. So the response that CreateSong and UpdateSong format after writing is not modelled: `SongHandler.CreateSong` and `SongHandler.UpdateSong` end at the write.
- The remaining group and song handlers (GetGroup, CreateGroup, UpdateGroup, DeleteGroup, DeleteSong) only parse an id or bind a body and call one statement. They are covered by the `Database.Store` methods and `Queries` functions they call.
- No handler lists a group's songs: getSongsByGroup is reached only from `song_service.go:42` and `song_repository.go:112`. `Queries.SongsByGroup` models the statement itself.
- Route registration is not modelled. The song routes register neither `GetSongVerses` nor a group's song list, and the group routes name a handler `GetAllGroups` where the handler is `GetGroups`.
- Snapshots: GetGroups (group_handler.go:74-113) and GetAllSongs (song_handler.go:181-219) run the rows statement and the count statement separately, outside a transaction. The model evaluates both on the same table contents, so a write landing between the two is not modelled.
- The Go wrappers' `rows.Next()` scanning loops only copy result rows. The statements are modelled as functions returning those rows.
- The logger, routes, `main.go` and the connection manager (`_manager.go`) are not part of this model.
