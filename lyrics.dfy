/** The lyrics codec: ParseLyrics (lyrics_parser.go) turns submitted text into
    the stored document {text, verses}; the handlers decode that document and
    display `text`, falling back to the verses joined by newlines. */
module Lyrics {
  import opened Text
  import opened Wrappers

  /** The JSON document stored in the songs.lyrics column. A missing or null
      "verses" member decodes to an empty list. */
  datatype LyricsDoc = LyricsDoc(text: String, verses: seq<String>)

  /** The bytes of the lyrics column: a marshalled document, or bytes that
      json.Unmarshal rejects. */
  datatype StoredLyrics = Json(doc: LyricsDoc) | Unparsable

  /** json.Unmarshal of the lyrics column. */
  function Decode(b: StoredLyrics): (r: Result<LyricsDoc>)
    ensures r.Ok? <==> b.Json?
    ensures r.Ok? ==> Json(r.value) == b
    ensures r.Err? ==> r.error == MalformedDocument
  {
    match b
    case Json(doc) => Ok(doc)
    case Unparsable => Err(MalformedDocument)
  }

  /** The lines ParseLyrics iterates over: CRLF normalised to LF, then split on LF. */
  function Lines(raw: String): (lines: seq<String>)
    ensures |lines| == Count(raw, '\n') + 1
  {
    ReplaceCRLFKeeps(raw);
    Split(ReplaceCRLF(raw))
  }

  /** Each line trimmed, blank results dropped, order kept. */
  function Verses(lines: seq<String>): (vs: seq<String>)
    ensures |vs| <= |lines|
  {
    if lines == [] then []
    else
      var t := Trim(lines[|lines| - 1]);
      Verses(lines[..|lines| - 1]) + (if t == [] then [] else [t])
  }

  /** The document ParseLyrics builds for raw. */
  function Encode(raw: String): (doc: LyricsDoc)
    ensures doc.text == raw
    ensures |doc.verses| <= Count(raw, '\n') + 1
  {
    LyricsDoc(raw, Verses(Lines(raw)))
  }

  /** A stored document whose verses are the ones its text derives. */
  ghost predicate Consistent(doc: LyricsDoc) {
    doc.verses == Verses(Lines(doc.text))
  }

  /** ParseLyrics: the loop over the split lines appends each non-blank trimmed
      line; the marshalled result keeps the raw input as its text. */
  method ParseLyrics(raw: String) returns (stored: StoredLyrics)
    ensures stored == Json(Encode(raw))
    ensures stored.doc.text == raw && Consistent(stored.doc)
  {
    var lines := Split(ReplaceCRLF(raw));
    var verses: seq<String> := [];
    for i := 0 to |lines|
      invariant verses == Verses(lines[..i])
    {
      var trimmedLine := Trim(lines[i]);
      if trimmedLine != [] {
        verses := verses + [trimmedLine];
      }
      assert lines[..i + 1][..i] == lines[..i];
    }
    assert lines[..|lines|] == lines;
    stored := Json(LyricsDoc(raw, verses));
  }

  /** The lyrics string of a song response (formatSong, formatBulkSongs). */
  function Display(doc: LyricsDoc): (r: String)
    ensures doc.text != [] ==> r == doc.text
    ensures doc.text == [] ==> r == Join(doc.verses)
  {
    if doc.text == [] && |doc.verses| > 0 then Join(doc.verses) else doc.text
  }

  // ------------------------------------------------------- verse structure

  /** Verses is computed line by line: it distributes over concatenation. */
  lemma {:induction false} VersesAppend(a: seq<String>, b: seq<String>)
    ensures Verses(a + b) == Verses(a) + Verses(b)
    decreases |b|
  {
    if b != [] {
      assert (a + b)[..|a + b| - 1] == a + b[..|b| - 1];
      VersesAppend(a, b[..|b| - 1]);
    } else {
      assert a + b == a;
    }
  }

  /** Every non-blank line i yields a verse, its trimmed form, at the position
      given by the number of verses the lines before it yield. */
  lemma VerseOfLine(lines: seq<String>, i: nat)
    requires i < |lines| && Trim(lines[i]) != []
    ensures |Verses(lines[..i])| < |Verses(lines)|
    ensures Verses(lines)[|Verses(lines[..i])|] == Trim(lines[i])
  {
    assert lines == lines[..i] + [lines[i]] + lines[i + 1..];
    VersesAppend(lines[..i] + [lines[i]], lines[i + 1..]);
    VersesAppend(lines[..i], [lines[i]]);
    assert Verses([lines[i]]) == [Trim(lines[i])] by {
      assert [lines[i]][..0] == [];
    }
  }

  /** Line i is where the k-th verse comes from. */
  ghost predicate VerseFrom(lines: seq<String>, k: nat, i: nat) {
    i < |lines| && |Verses(lines[..i])| == k && k < |Verses(lines)| && Verses(lines)[k] == Trim(lines[i])
  }

  /** Every verse comes from a line: the k-th verse is the trimmed form of the
      line before which exactly k verses were produced. */
  lemma {:induction false} LineOfVerse(lines: seq<String>, k: nat)
    requires k < |Verses(lines)|
    ensures exists i :: VerseFrom(lines, k, i)
  {
    assert lines != [];
    var n := |lines| - 1;
    var init := lines[..n];
    if k < |Verses(init)| {
      LineOfVerse(init, k);
      var i: nat :| VerseFrom(init, k, i);
      VerseFromExtend(lines, k, i);
    } else {
      VerseFromLast(lines, k);
    }
  }

  lemma VerseFromExtend(lines: seq<String>, k: nat, i: nat)
    requires lines != [] && VerseFrom(lines[..|lines| - 1], k, i)
    ensures VerseFrom(lines, k, i)
  {
    var n := |lines| - 1;
    var init := lines[..n];
    assert init[..i] == lines[..i] && init[i] == lines[i];
    var t := Trim(lines[n]);
    assert Verses(lines) == Verses(init) + (if t == [] then [] else [t]);
  }

  lemma VerseFromLast(lines: seq<String>, k: nat)
    requires lines != [] && |Verses(lines[..|lines| - 1])| <= k < |Verses(lines)|
    ensures VerseFrom(lines, k, |lines| - 1)
  {
    var n := |lines| - 1;
    var t := Trim(lines[n]);
    assert Verses(lines) == Verses(lines[..n]) + (if t == [] then [] else [t]);
  }

  /** Blank lines yield no verse, so no verse is empty. */
  lemma {:induction false} VersesNonEmpty(lines: seq<String>)
    ensures forall k :: 0 <= k < |Verses(lines)| ==> Verses(lines)[k] != []
  {
    if lines != [] {
      VersesNonEmpty(lines[..|lines| - 1]);
    }
  }

  /** The trimmed form of a line without line breaks has none either, and
      neither starts nor ends with white space. */
  lemma TrimmedLineShape(line: String)
    requires '\n' !in line && Trim(line) != []
    ensures var v := Trim(line);
      '\n' !in v && !IsSpace(v[0]) && !IsSpace(v[|v| - 1])
  {
    TrimShape(line);
    var v := Trim(line);
    var j :| PaddedAt(line, v, j);
    forall m | 0 <= m < |v| ensures v[m] != '\n' {
      assert v[m] == line[j + m];
    }
  }

  /** A well-formed verse: a non-empty line fragment without line breaks
      that neither starts nor ends with white space. */
  predicate IsVerse(v: String) {
    v != [] && '\n' !in v && !IsSpace(v[0]) && !IsSpace(v[|v| - 1])
  }

  /** Every verse of lines without line breaks is well formed. */
  lemma VerseShape(lines: seq<String>, k: nat)
    requires forall i :: 0 <= i < |lines| ==> '\n' !in lines[i]
    requires k < |Verses(lines)|
    ensures IsVerse(Verses(lines)[k])
  {
    LineOfVerse(lines, k);
    var i: nat :| VerseFrom(lines, k, i);
    VersesNonEmpty(lines);
    TrimmedLineShape(lines[i]);
  }

  lemma VersesShape(lines: seq<String>)
    requires forall i :: 0 <= i < |lines| ==> '\n' !in lines[i]
    ensures forall v :: v in Verses(lines) ==> IsVerse(v)
  {
    forall v | v in Verses(lines) ensures IsVerse(v) {
      var k :| 0 <= k < |Verses(lines)| && Verses(lines)[k] == v;
      VerseShape(lines, k);
    }
  }

  /** Each verse is a non-empty, trimmed piece of one input line, so it holds
      no line break. */
  lemma EncodeVerseShape(raw: String)
    ensures forall v :: v in Encode(raw).verses ==> IsVerse(v)
  {
    LinesHaveNoBreak(raw);
    VersesShape(Lines(raw));
  }

  lemma LinesHaveNoBreak(raw: String)
    ensures forall i :: 0 <= i < |Lines(raw)| ==> '\n' !in Lines(raw)[i]
  {
    assert Lines(raw) == Split(ReplaceCRLF(raw));
  }

  // --------------------------------------------------------- blank input

  lemma {:induction false} VersesEmptyIff(lines: seq<String>)
    ensures Verses(lines) == [] <==> forall i :: 0 <= i < |lines| ==> AllSpace(lines[i])
  {
    if lines != [] {
      var n := |lines| - 1;
      VersesEmptyIff(lines[..n]);
      TrimShape(lines[n]);
      assert forall i :: 0 <= i < n ==> lines[..n][i] == lines[i];
    }
  }

  lemma {:induction false} AllSpaceJoin(lines: seq<String>)
    ensures AllSpace(Join(lines)) <==> forall i :: 0 <= i < |lines| ==> AllSpace(lines[i])
  {
    if |lines| > 1 {
      AllSpaceJoin(lines[1..]);
      AllSpaceConcat(lines[0] + "\n", Join(lines[1..]));
      AllSpaceConcat(lines[0], "\n");
      assert forall i :: 1 <= i < |lines| ==> lines[i] == lines[1..][i - 1];
    }
  }

  /** Empty or white-space-only lyrics yield no verses, and only those do. */
  lemma BlankIffNoVerses(raw: String)
    ensures Encode(raw).verses == [] <==> AllSpace(raw)
  {
    var s := ReplaceCRLF(raw);
    ReplaceCRLFKeeps(raw);
    JoinSplit(s);
    AllSpaceJoin(Split(s));
    VersesEmptyIff(Split(s));
  }

  // ---------------------------------------------------- CRLF equivalence

  /** b is a, possibly followed by one carriage return. */
  ghost predicate SameUpToCR(a: String, b: String) {
    b == a || b == a + ['\r']
  }

  /** Line lists that agree line by line up to a final carriage return. */
  ghost predicate Alike(a: seq<String>, b: seq<String>) {
    |a| == |b| && forall i :: 0 <= i < |a| ==> SameUpToCR(a[i], b[i])
  }

  lemma AlikeCons(x: String, y: String, a: seq<String>, b: seq<String>)
    requires SameUpToCR(x, y) && Alike(a, b)
    ensures Alike([x] + a, [y] + b)
  {
    forall i | 0 <= i < |a| + 1 ensures SameUpToCR(([x] + a)[i], ([y] + b)[i]) {
      if i > 0 {
        assert ([x] + a)[i] == a[i - 1] && ([y] + b)[i] == b[i - 1];
      }
    }
  }

  /** Splitting after CRLF normalisation gives the same lines, except that a
      line may have lost the carriage return that ended it. */
  ghost predicate SplitsAlike(s: String) {
    Alike(Split(ReplaceCRLF(s)), Split(s))
  }

  lemma {:induction false} SplitReplaceCRLF(s: String)
    ensures SplitsAlike(s)
    decreases |s|
  {
    if |s| >= 2 && s[0] == '\r' && s[1] == '\n' {
      SplitReplaceCRLF(s[2..]);
      assert s == "\r\n" + s[2..];
      SplitsAlikeCRLF(s[2..]);
    } else if s != [] {
      SplitReplaceCRLF(s[1..]);
      assert s == [s[0]] + s[1..];
      SplitsAlikeCons(s[0], s[1..]);
    }
  }

  lemma SplitsAlikeCRLF(t: String)
    requires SplitsAlike(t)
    ensures SplitsAlike("\r\n" + t)
  {
    var s := "\r\n" + t;
    SplitCRLF(t);
    assert s[2..] == t;
    assert ReplaceCRLF(s) == ['\n'] + ReplaceCRLF(t);
    SplitCons('\n', ReplaceCRLF(t));
    AlikeCons([], ['\r'], Split(ReplaceCRLF(t)), Split(t));
  }

  /** A CRLF in front ends a first line holding just the carriage return. */
  lemma SplitCRLF(t: String)
    ensures Split("\r\n" + t) == [['\r']] + Split(t)
  {
    assert "\r\n" + t == ['\r'] + (['\n'] + t);
    SplitCons('\n', t);
    SplitCons('\r', ['\n'] + t);
    var r := Split(['\n'] + t);
    assert r[0] == [] && r[1..] == Split(t);
    assert ['\r'] + r[0] == ['\r'];
  }

  lemma SplitsAlikeCons(c: char, t: String)
    requires !(c == '\r' && t != [] && t[0] == '\n')
    requires SplitsAlike(t)
    ensures SplitsAlike([c] + t)
  {
    var s := [c] + t;
    var a := Split(ReplaceCRLF(t));
    var b := Split(t);
    assert s[1..] == t;
    assert ReplaceCRLF(s) == [c] + ReplaceCRLF(t);
    SplitCons(c, t);
    SplitCons(c, ReplaceCRLF(t));
    if c == '\n' {
      AlikeCons([], [], a, b);
    } else {
      AlikeTail(a, b);
      SameUpToCRCons(c, a[0], b[0]);
      AlikeCons([c] + a[0], [c] + b[0], a[1..], b[1..]);
    }
  }

  lemma SameUpToCRCons(c: char, x: String, y: String)
    requires SameUpToCR(x, y)
    ensures SameUpToCR([c] + x, [c] + y)
  {
    if y != x {
      assert [c] + y == ([c] + x) + ['\r'];
    }
  }

  lemma AlikeTail(a: seq<String>, b: seq<String>)
    requires Alike(a, b) && a != []
    ensures SameUpToCR(a[0], b[0]) && Alike(a[1..], b[1..])
  {
    assert forall i :: 0 <= i < |a| - 1 ==> a[1..][i] == a[i + 1] && b[1..][i] == b[i + 1];
  }

  /** Lines whose trimmed forms agree give the same verses. */
  lemma {:induction false} VersesOfTrimEqual(a: seq<String>, b: seq<String>)
    requires |a| == |b|
    requires forall i :: 0 <= i < |a| ==> Trim(a[i]) == Trim(b[i])
    ensures Verses(a) == Verses(b)
  {
    if a != [] {
      var n := |a| - 1;
      assert forall i :: 0 <= i < n ==> a[..n][i] == a[i] && b[..n][i] == b[i];
      VersesOfTrimEqual(a[..n], b[..n]);
    }
  }

  /** "\r\n" and "\n" separate lines alike: normalising CRLF does not change
      the verses, whether or not it has been applied already. */
  lemma VersesIgnoreCRLF(s: String)
    ensures Verses(Split(ReplaceCRLF(s))) == Verses(Split(s))
  {
    SplitReplaceCRLF(s);
    var a := Split(ReplaceCRLF(s));
    var b := Split(s);
    forall i | 0 <= i < |a| ensures Trim(a[i]) == Trim(b[i]) {
      if b[i] != a[i] {
        TrimIgnoresTrailingSpace(a[i], '\r');
      }
    }
    VersesOfTrimEqual(a, b);
  }

  /** Replacing every CRLF of the input by LF beforehand yields the same verses. */
  lemma CRLFEquivalent(raw: String)
    ensures Encode(ReplaceCRLF(raw)).verses == Encode(raw).verses
  {
    VersesIgnoreCRLF(ReplaceCRLF(raw));
  }

  // --------------------------------------------------------- round trips

  /** The display decoder gives back exactly the submitted text, "" included. */
  lemma DisplayRoundTrip(raw: String)
    ensures Display(Encode(raw)) == raw
  {
    if raw == [] {
      BlankIffNoVerses(raw);
    }
  }

  /** A verse as ParseLyrics produces it. */
  ghost predicate WellFormedVerse(v: String) {
    v != [] && '\n' !in v && Trim(v) == v
  }

  lemma {:induction false} VersesOfVerses(vs: seq<String>)
    requires forall k :: 0 <= k < |vs| ==> WellFormedVerse(vs[k])
    ensures Verses(vs) == vs
  {
    if vs != [] {
      var n := |vs| - 1;
      var init := vs[..n];
      forall k | 0 <= k < n ensures WellFormedVerse(init[k]) {
        assert init[k] == vs[k];
      }
      VersesOfVerses(init);
      assert WellFormedVerse(vs[n]);
      assert Verses(vs) == Verses(init) + [vs[n]];
      assert vs == init + [vs[n]];
    }
  }

  /** A record stored with verses only displays as those verses joined by
      newlines, and encoding that display again reproduces the same verses. */
  lemma LegacyDocReencodes(doc: LyricsDoc)
    requires doc.text == []
    requires forall k :: 0 <= k < |doc.verses| ==> WellFormedVerse(doc.verses[k])
    ensures Encode(Display(doc)).verses == doc.verses
  {
    var vs := doc.verses;
    if vs == [] {
      assert Display(doc) == [];
      BlankIffNoVerses([]);
    } else {
      var j := Join(vs);
      assert Display(doc) == j;
      assert Encode(j).verses == Verses(Split(ReplaceCRLF(j)));
      VersesIgnoreCRLF(j);
      assert forall i :: 0 <= i < |vs| ==> '\n' !in vs[i];
      SplitJoin(vs);
      VersesOfVerses(vs);
    }
  }
}
