/** Page and limit resolution, the offset and total-pages arithmetic shared by
    GetGroups, GetAllSongs and GetSongVerses, and the verse slicing of
    GetSongVerses. */
module Pagination {
  import opened Wrappers
  import opened Seqs

  const DefaultPage: int := 1
  const DefaultLimit: int := 10

  /** A query parameter as strconv.Atoi leaves it: None when it is missing or
      not a decimal integer. A value below 1 falls back to the default. */
  function Resolve(parsed: Option<int>, default: int): (r: int)
    requires default >= 1
    ensures r >= 1
    ensures parsed.Some? && parsed.value >= 1 ==> r == parsed.value
    ensures r != default ==> parsed == Some(r)
  {
    if parsed.Some? && parsed.value >= 1 then parsed.value else default
  }

  function ResolvePage(parsed: Option<int>): (page: int)
    ensures page >= 1
  {
    Resolve(parsed, DefaultPage)
  }

  function ResolveLimit(parsed: Option<int>): (limit: int)
    ensures limit >= 1
  {
    Resolve(parsed, DefaultLimit)
  }

  /** Resolution is a fixed point: sending back the page and limit a response
      echoes selects the same page and limit. */
  lemma ResolveEcho(parsed: Option<int>, default: int)
    requires default >= 1
    ensures Resolve(Some(Resolve(parsed, default)), default) == Resolve(parsed, default)
  {
  }

  /** offset = (page - 1) * limit: the number of rows on the pages before page. */
  function Offset(page: int, limit: int): nat
    requires page >= 1 && limit >= 1
  {
    LemmaMulDiv(page - 1, limit);
    (page - 1) * limit
  }

  /** Every page starts at a multiple of the limit, and the quotient is the
      number of pages before it. */
  lemma OffsetIsMultiple(page: int, limit: int)
    requires page >= 1 && limit >= 1
    ensures Offset(page, limit) % limit == 0 && Offset(page, limit) / limit == page - 1
  {
    LemmaMulDiv(page - 1, limit);
  }

  lemma LemmaMulDiv(q: nat, d: int)
    requires d >= 1
    ensures q * d >= 0 && (q * d) % d == 0 && (q * d) / d == q
  {
    var r := q * d;
    var q2, m := r / d, r % d;
    assert r == q2 * d + m && 0 <= m < d;
    assert (q - q2) * d == m;
    if q - q2 >= 1 {
      LemmaMulMono(1, q - q2, d);
    } else if q - q2 <= -1 {
      LemmaMulMono(q - q2, -1, d);
    }
  }

  /** pages = (total + limit - 1) / limit. */
  function PageCount(total: nat, limit: int): (pages: nat)
    requires limit >= 1
  {
    (total + limit - 1) / limit
  }

  /** pages is the ceiling of total / limit: enough pages to hold every row,
      and no page that holds none; zero exactly when total is zero. */
  predicate IsCeiling(pages: int, total: int, limit: int) {
    && pages * limit >= total
    && (pages - 1) * limit < total
    && (pages == 0 <==> total == 0)
  }

  /** The page count is the ceiling of total / limit: enough pages to hold
      every row, and no page that holds none; zero exactly when total is zero. */
  lemma PageCountIsCeiling(total: nat, limit: int)
    requires limit >= 1
    ensures IsCeiling(PageCount(total, limit), total, limit)
  {
    var pages := PageCount(total, limit);
    var n := total + limit - 1;
    var rem := n % limit;
    assert n == pages * limit + rem && 0 <= rem < limit;
    assert pages * limit == n - rem;
    assert (pages - 1) * limit == n - rem - limit;
  }

  /** A page starts inside the rows exactly when its number is at most the page count. */
  lemma OffsetInRange(page: int, limit: int, total: nat)
    requires page >= 1 && limit >= 1
    ensures Offset(page, limit) < total <==> page <= PageCount(total, limit)
  {
    var pages := PageCount(total, limit);
    PageCountIsCeiling(total, limit);
    if page <= pages {
      assert (page - 1) * limit <= (pages - 1) * limit by {
        LemmaMulMono(page - 1, pages - 1, limit);
      }
    } else {
      assert pages * limit <= (page - 1) * limit by {
        LemmaMulMono(pages, page - 1, limit);
      }
    }
  }

  lemma LemmaMulMono(a: int, b: int, c: nat)
    requires a <= b
    ensures a * c <= b * c
  {
    assert b * c - a * c == (b - a) * c;
  }

  // ------------------------------------------------------------ verse pages

  /** The verses response of GetSongVerses: the resolved page and limit, the
      page count, the number of verses and the verses of this page. */
  datatype VersePage = VersePage(page: int, limit: int, pages: nat, total: nat, verses: seq<string>)

  /** GetSongVerses' slicing: an empty list when the start index is at or past
      the end, otherwise verses[start .. min(start + limit, total)). */
  function SliceVerses(all: seq<string>, page: int, limit: int): (r: VersePage)
    requires page >= 1 && limit >= 1
    ensures r.page == page && r.limit == limit && r.total == |all|
    ensures r.pages == PageCount(|all|, limit)
    ensures r.verses == Window(all, limit, Offset(page, limit))
  {
    var total := |all|;
    var pages := PageCount(total, limit);
    var start := Offset(page, limit);
    var end := start + limit;
    if start >= total then VersePage(page, limit, pages, total, [])
    else
      var end := if end > total then total else end;
      VersePage(page, limit, pages, total, all[start..end])
  }

  /** A page is empty exactly when its number is past the page count; the
      total and the page count are reported either way. */
  lemma SliceEmptyIff(all: seq<string>, page: int, limit: int)
    requires page >= 1 && limit >= 1
    ensures SliceVerses(all, page, limit).verses == [] <==> page > PageCount(|all|, limit)
  {
    OffsetInRange(page, limit, |all|);
  }

  /** A page inside the range holds min(limit, total - start) verses, contiguous
      and in their original order. */
  lemma SliceContents(all: seq<string>, page: int, limit: int)
    requires page >= 1 && limit >= 1 && Offset(page, limit) < |all|
    ensures var start := Offset(page, limit);
      && |SliceVerses(all, page, limit).verses| == Min(limit, |all| - start)
      && SliceVerses(all, page, limit).verses == all[start..start + Min(limit, |all| - start)]
  {
  }

  /** Paging through every page in turn yields every row once, in order. */
  lemma {:induction false} PagesCover<T>(s: seq<T>, limit: int)
    requires limit >= 1
    ensures Paged(s, limit, PageCount(|s|, limit)) == s
  {
    var pages := PageCount(|s|, limit);
    PageCountIsCeiling(|s|, limit);
    PagedIsPrefix(s, limit, pages);
    assert Min(pages * limit, |s|) == |s|;
  }

  /** The verse pages 1 .. pages, concatenated. */
  function VersePages(all: seq<string>, limit: int, n: nat): seq<string>
    requires limit >= 1
  {
    if n == 0 then [] else VersePages(all, limit, n - 1) + SliceVerses(all, n, limit).verses
  }

  /** Reading the verse pages 1 .. pages in turn gives back every verse exactly
      once, in order. */
  lemma VersePagesCover(all: seq<string>, limit: int)
    requires limit >= 1
    ensures VersePages(all, limit, PageCount(|all|, limit)) == all
  {
    VersePagesArePaged(all, limit, PageCount(|all|, limit));
    PagesCover(all, limit);
  }

  lemma {:induction false} VersePagesArePaged(all: seq<string>, limit: int, n: nat)
    requires limit >= 1
    ensures VersePages(all, limit, n) == Paged(all, limit, n)
  {
    if n > 0 {
      VersePagesArePaged(all, limit, n - 1);
    }
  }
}
