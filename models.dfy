/** The rows of the groups and songs tables (models.go) and the narrower rows
    the list queries select. Ids are opaque uuids, timestamps are instants. */
module Models {
  import opened Wrappers
  import opened Text
  import opened Lyrics

  type Uuid = nat
  type Timestamp = int

  /** Postgres integer / Go int32. */
  newtype Int32 = x: int | -0x8000_0000 <= x < 0x8000_0000

  /** database.Group. */
  datatype GroupRow = GroupRow(
    id: Uuid,
    name: String,
    createdAt: Timestamp,
    updatedAt: Timestamp,
    deletedAt: Option<Timestamp>)

  /** database.Song; lyrics holds the JSON document ParseLyrics produced. */
  datatype SongRow = SongRow(
    id: Uuid,
    groupId: Uuid,
    title: String,
    runtime: Int32,
    lyrics: StoredLyrics,
    releaseDate: Timestamp,
    link: String,
    createdAt: Timestamp,
    updatedAt: Timestamp,
    deletedAt: Option<Timestamp>)

  /** The columns a song statement writes: CreateSongParams and
      UpdateSongParams without the id. */
  datatype SongFields = SongFields(
    groupId: Uuid,
    title: String,
    runtime: Int32,
    lyrics: StoredLyrics,
    releaseDate: Timestamp,
    link: String)

  /** GetGroupsWithPaginationRow: a group without deleted_at. */
  datatype GroupListRow = GroupListRow(id: Uuid, name: String, createdAt: Timestamp, updatedAt: Timestamp)

  /** GetSongsWithPaginationRow and GetSongsWithFiltersRow: a song without deleted_at. */
  datatype SongListRow = SongListRow(
    id: Uuid,
    groupId: Uuid,
    title: String,
    runtime: Int32,
    lyrics: StoredLyrics,
    releaseDate: Timestamp,
    link: String,
    createdAt: Timestamp,
    updatedAt: Timestamp)

  /** deleted_at IS NULL */
  predicate GroupLive(g: GroupRow) { g.deletedAt.None? }
  predicate SongLive(s: SongRow) { s.deletedAt.None? }

  function GroupCreated(g: GroupRow): int { g.createdAt }
  function SongCreated(s: SongRow): int { s.createdAt }
  function SongReleased(s: SongRow): int { s.releaseDate }

  function ListGroup(g: GroupRow): GroupListRow {
    GroupListRow(g.id, g.name, g.createdAt, g.updatedAt)
  }

  function ListSong(s: SongRow): SongListRow {
    SongListRow(s.id, s.groupId, s.title, s.runtime, s.lyrics, s.releaseDate, s.link, s.createdAt, s.updatedAt)
  }

  /** The row an INSERT creates: the id and the timestamps are column
      defaults (a fresh uuid and NOW()), deleted_at is NULL. */
  function NewGroup(id: Uuid, name: String, now: Timestamp): GroupRow {
    GroupRow(id, name, now, now, None)
  }

  function NewSong(id: Uuid, f: SongFields, now: Timestamp): SongRow {
    SongRow(id, f.groupId, f.title, f.runtime, f.lyrics, f.releaseDate, f.link, now, now, None)
  }

  /** A song row with the written columns replaced. */
  function WithFields(s: SongRow, f: SongFields): SongRow {
    s.(groupId := f.groupId, title := f.title, runtime := f.runtime, lyrics := f.lyrics,
       releaseDate := f.releaseDate, link := f.link)
  }
}
