/** The string primitives the lyrics codec and the SQL filters rely on:
    Go's strings.TrimSpace, strings.ReplaceAll(s, "\r\n", "\n"),
    strings.Split(s, "\n"), strings.Join(xs, "\n"), and ASCII lowering and
    substring search for LOWER(..) LIKE '%..%'. */
module Text {

  type String = seq<char>

  /** White space as unicode.IsSpace defines it (the set strings.TrimSpace strips). */
  predicate IsSpace(c: char) {
    || c == ' ' || c == '\t' || c == '\n' || c == '\U{000B}' || c == '\U{000C}' || c == '\r'
    || c == '\U{0085}' || c == '\U{00A0}' || c == '\U{1680}'
    || ('\U{2000}' <= c <= '\U{200A}')
    || c == '\U{2028}' || c == '\U{2029}' || c == '\U{202F}' || c == '\U{205F}' || c == '\U{3000}'
  }

  /** t occurs in s starting at position i. */
  predicate OccursAt(s: String, t: String, i: int) {
    0 <= i <= |s| - |t| && s[i..i + |t|] == t
  }

  predicate AllSpace(s: String) {
    forall i :: 0 <= i < |s| ==> IsSpace(s[i])
  }

  lemma AllSpaceConcat(a: String, b: String)
    ensures AllSpace(a + b) <==> AllSpace(a) && AllSpace(b)
  {
    assert forall i :: 0 <= i < |a| ==> (a + b)[i] == a[i];
    assert forall i :: 0 <= i < |b| ==> (a + b)[|a| + i] == b[i];
  }

  /** Number of occurrences of c in s. */
  function Count(s: String, c: char): nat {
    if s == [] then 0 else Count(s[..|s| - 1], c) + (if s[|s| - 1] == c then 1 else 0)
  }

  lemma {:induction false} CountAppend(a: String, b: String, c: char)
    ensures Count(a + b, c) == Count(a, c) + Count(b, c)
    decreases |b|
  {
    if b == [] {
      assert a + b == a;
    } else {
      assert (a + b)[..|a + b| - 1] == a + b[..|b| - 1];
      CountAppend(a, b[..|b| - 1], c);
    }
  }

  // ---------------------------------------------------------------- trimming

  function TrimLeft(s: String): (r: String)
    ensures |r| <= |s|
  {
    if s != [] && IsSpace(s[0]) then TrimLeft(s[1..]) else s
  }

  function TrimRight(s: String): (r: String)
    ensures |r| <= |s|
  {
    if s != [] && IsSpace(s[|s| - 1]) then TrimRight(s[..|s| - 1]) else s
  }

  /** TrimLeft strips exactly the leading white space. */
  lemma {:induction false} TrimLeftShape(s: String)
    ensures var r := TrimLeft(s);
      && r == s[|s| - |r|..]
      && (r == [] || !IsSpace(r[0]))
      && forall i :: 0 <= i < |s| - |r| ==> IsSpace(s[i])
  {
    if s != [] && IsSpace(s[0]) {
      TrimLeftShape(s[1..]);
      assert s[1..][|s| - 1 - |TrimLeft(s)|..] == s[|s| - |TrimLeft(s)|..];
      assert forall i :: 1 <= i < |s| ==> s[i] == s[1..][i - 1];
    }
  }

  /** TrimRight strips exactly the trailing white space. */
  lemma {:induction false} TrimRightShape(s: String)
    ensures var r := TrimRight(s);
      && r == s[..|r|]
      && (r == [] || !IsSpace(r[|r| - 1]))
      && forall i :: |r| <= i < |s| ==> IsSpace(s[i])
  {
    if s != [] && IsSpace(s[|s| - 1]) {
      TrimRightShape(s[..|s| - 1]);
      assert s[..|s| - 1][..|TrimRight(s)|] == s[..|TrimRight(s)|];
    }
  }

  /** strings.TrimSpace: white space stripped from both ends. */
  function Trim(s: String): (r: String)
    ensures |r| <= |s|
  {
    TrimRight(TrimLeft(s))
  }

  /** t occurs in s at position i, and everything of s around it is white space. */
  ghost predicate PaddedAt(s: String, t: String, i: int) {
    && OccursAt(s, t, i)
    && (forall k :: 0 <= k < i ==> IsSpace(s[k]))
    && (forall k :: i + |t| <= k < |s| ==> IsSpace(s[k]))
  }

  /** The trimmed form is an infix of s that neither starts nor ends with white
      space, with only white space around it in s, and it is empty exactly when
      s is all white space. */
  lemma TrimShape(s: String)
    ensures var r := Trim(s);
      && (r == [] || (!IsSpace(r[0]) && !IsSpace(r[|r| - 1])))
      && (exists i :: PaddedAt(s, r, i))
      && (r == [] <==> AllSpace(s))
  {
    TrimEnds(s);
    TrimOccurs(s);
    TrimEmptyIff(s);
  }

  lemma TrimEnds(s: String)
    ensures var r := Trim(s);
      r == [] || (!IsSpace(r[0]) && !IsSpace(r[|r| - 1]))
  {
    var l := TrimLeft(s);
    var r := TrimRight(l);
    TrimLeftShape(s);
    TrimRightShape(l);
    assert r != [] ==> r[0] == l[0];
  }

  lemma TrimOccurs(s: String)
    ensures PaddedAt(s, Trim(s), |s| - |TrimLeft(s)|)
  {
    var l := TrimLeft(s);
    var r := TrimRight(l);
    var i := |s| - |l|;
    TrimLeftShape(s);
    TrimRightShape(l);
    SliceOfSuffix(s, i, |r|);
    forall k | i + |r| <= k < |s| ensures IsSpace(s[k]) {
      assert s[k] == l[k - i];
    }
  }

  lemma SliceOfSuffix(s: String, j: nat, m: nat)
    requires j + m <= |s|
    ensures s[j..][..m] == s[j..j + m]
  {
  }

  lemma TrimEmptyIff(s: String)
    ensures Trim(s) == [] <==> AllSpace(s)
  {
    TrimLeftShape(s);
    TrimRightShape(TrimLeft(s));
  }

  lemma {:induction false} TrimLeftOfTrimmed(s: String)
    requires s == [] || !IsSpace(s[0])
    ensures TrimLeft(s) == s
  {
  }

  lemma {:induction false} TrimRightOfTrimmed(s: String)
    requires s == [] || !IsSpace(s[|s| - 1])
    ensures TrimRight(s) == s
  {
  }

  /** Trimming is idempotent. */
  lemma TrimIdempotent(s: String)
    ensures Trim(Trim(s)) == Trim(s)
  {
    var t := Trim(s);
    TrimShape(s);
    TrimLeftOfTrimmed(t);
    TrimRightOfTrimmed(t);
  }

  /** A non-empty string is all white space when its head is and its tail is. */
  lemma AllSpaceCons(x: String)
    requires x != []
    ensures AllSpace(x) <==> IsSpace(x[0]) && AllSpace(x[1..])
  {
    if IsSpace(x[0]) && AllSpace(x[1..]) {
      forall i | 0 <= i < |x| ensures IsSpace(x[i]) {
        if i > 0 { assert x[i] == x[1..][i - 1]; }
      }
    }
    if AllSpace(x) {
      forall i | 0 <= i < |x| - 1 ensures IsSpace(x[1..][i]) {
        assert x[1..][i] == x[i + 1];
      }
    }
  }

  lemma {:induction false} TrimLeftSnoc(x: String, c: char)
    requires IsSpace(c)
    ensures TrimLeft(x + [c]) == if AllSpace(x) then [] else TrimLeft(x) + [c]
    decreases |x|
  {
    var xc := x + [c];
    if x == [] {
      assert xc == [c] && xc[1..] == [];
    } else {
      assert xc[0] == x[0] && xc[1..] == x[1..] + [c];
      AllSpaceCons(x);
      if IsSpace(x[0]) {
        TrimLeftSnoc(x[1..], c);
      }
    }
  }

  lemma {:induction false} TrimRightSnoc(y: String, c: char)
    requires IsSpace(c)
    ensures TrimRight(y + [c]) == TrimRight(y)
  {
    assert (y + [c])[..|y + [c]| - 1] == y;
  }

  /** A trailing white-space character never changes the trimmed form:
      this is why a "\r" left before "\n" is harmless. */
  lemma TrimIgnoresTrailingSpace(x: String, c: char)
    requires IsSpace(c)
    ensures Trim(x + [c]) == Trim(x)
  {
    TrimLeftSnoc(x, c);
    if !AllSpace(x) {
      TrimRightSnoc(TrimLeft(x), c);
    } else {
      TrimShape(x);
    }
  }

  // ------------------------------------------------- CRLF normalisation

  /** strings.ReplaceAll(s, "\r\n", "\n"): non-overlapping, left to right. */
  function ReplaceCRLF(s: String): (r: String)
    ensures |r| <= |s|
  {
    if |s| >= 2 && s[0] == '\r' && s[1] == '\n' then "\n" + ReplaceCRLF(s[2..])
    else if s == [] then []
    else [s[0]] + ReplaceCRLF(s[1..])
  }

  /** Normalising CRLF keeps every line break and removes only carriage
      returns, so the text stays all white space exactly when it was. */
  lemma ReplaceCRLFKeeps(s: String)
    ensures Count(ReplaceCRLF(s), '\n') == Count(s, '\n')
    ensures AllSpace(ReplaceCRLF(s)) <==> AllSpace(s)
  {
    ReplaceCRLFCount(s);
    ReplaceCRLFSpace(s);
  }

  lemma {:induction false} ReplaceCRLFCount(s: String)
    ensures Count(ReplaceCRLF(s), '\n') == Count(s, '\n')
    decreases |s|
  {
    if |s| >= 2 && s[0] == '\r' && s[1] == '\n' {
      var rest := ReplaceCRLF(s[2..]);
      ReplaceCRLFCount(s[2..]);
      assert ReplaceCRLF(s) == "\n" + rest;
      CountAppend("\n", rest, '\n');
      CountAppend("\r\n", s[2..], '\n');
      assert s == "\r\n" + s[2..];
    } else if s != [] {
      var rest := ReplaceCRLF(s[1..]);
      ReplaceCRLFCount(s[1..]);
      assert ReplaceCRLF(s) == [s[0]] + rest;
      CountAppend([s[0]], rest, '\n');
      CountAppend([s[0]], s[1..], '\n');
      assert s == [s[0]] + s[1..];
    }
  }

  lemma {:induction false} ReplaceCRLFSpace(s: String)
    ensures AllSpace(ReplaceCRLF(s)) <==> AllSpace(s)
    decreases |s|
  {
    if |s| >= 2 && s[0] == '\r' && s[1] == '\n' {
      var rest := ReplaceCRLF(s[2..]);
      ReplaceCRLFSpace(s[2..]);
      assert ReplaceCRLF(s) == "\n" + rest;
      assert s == "\r\n" + s[2..];
      AllSpaceConcat("\r\n", s[2..]);
      AllSpaceConcat("\n", rest);
    } else if s != [] {
      var rest := ReplaceCRLF(s[1..]);
      ReplaceCRLFSpace(s[1..]);
      assert ReplaceCRLF(s) == [s[0]] + rest;
      assert s == [s[0]] + s[1..];
      AllSpaceConcat([s[0]], s[1..]);
      AllSpaceConcat([s[0]], rest);
    }
  }

  // ---------------------------------------------------- split and join

  /** strings.Split(s, "\n"): always at least one element, "" gives [""]. */
  function Split(s: String): (lines: seq<String>)
    ensures |lines| == Count(s, '\n') + 1
    ensures forall i :: 0 <= i < |lines| ==> '\n' !in lines[i]
  {
    if s == [] then [[]]
    else
      var rest := Split(s[1..]);
      CountAppend([s[0]], s[1..], '\n');
      assert s == [s[0]] + s[1..];
      if s[0] == '\n' then [[]] + rest
      else [[s[0]] + rest[0]] + rest[1..]
  }

  /** Splitting a string with one more character in front. */
  lemma SplitCons(c: char, t: String)
    ensures Split([c] + t) == if c == '\n' then [[]] + Split(t) else [[c] + Split(t)[0]] + Split(t)[1..]
  {
    assert ([c] + t)[1..] == t;
  }

  /** strings.Join(lines, "\n"). */
  function Join(lines: seq<String>): String {
    if lines == [] then []
    else if |lines| == 1 then lines[0]
    else lines[0] + "\n" + Join(lines[1..])
  }

  /** Joining the pieces of a split gives back the input. */
  lemma {:induction false} JoinSplit(s: String)
    ensures Join(Split(s)) == s
  {
    if s != [] {
      var rest := Split(s[1..]);
      JoinSplit(s[1..]);
      if s[0] != '\n' && |rest| > 1 {
        assert rest == [rest[0]] + rest[1..];
      }
    }
  }

  lemma {:induction false} SplitNoNewline(x: String)
    requires '\n' !in x
    ensures Split(x) == [x]
  {
    if x != [] {
      SplitNoNewline(x[1..]);
      assert x == [x[0]] + x[1..];
    }
  }

  lemma {:induction false} SplitAtNewline(x: String, y: String)
    requires '\n' !in x
    ensures Split(x + "\n" + y) == [x] + Split(y)
  {
    var s := x + "\n" + y;
    if x != [] {
      assert s[1..] == x[1..] + "\n" + y;
      SplitAtNewline(x[1..], y);
      assert s[0] == x[0] && x[0] != '\n';
      assert x == [x[0]] + x[1..];
    } else {
      assert s[0] == '\n' && s[1..] == y;
    }
  }

  /** Splitting a join of newline-free pieces gives the pieces back. */
  lemma {:induction false} SplitJoin(lines: seq<String>)
    requires |lines| >= 1
    requires forall i :: 0 <= i < |lines| ==> '\n' !in lines[i]
    ensures Split(Join(lines)) == lines
  {
    if |lines| == 1 {
      SplitNoNewline(lines[0]);
    } else {
      SplitJoin(lines[1..]);
      SplitAtNewline(lines[0], Join(lines[1..]));
    }
  }

  // ------------------------------------------ lowering and substring search

  /** LOWER(..), on the ASCII letters only. */
  function Lower(s: String): (r: String)
    ensures |r| == |s|
    ensures forall i :: 0 <= i < |s| ==> r[i] == LowerChar(s[i])
  {
    seq(|s|, i requires 0 <= i < |s| => LowerChar(s[i]))
  }

  function LowerChar(c: char): char {
    if 'A' <= c <= 'Z' then (c as int + 32) as char else c
  }

  /** Lowering twice is lowering once, so a filter's own case never matters. */
  lemma LowerIdempotent(s: String)
    ensures Lower(Lower(s)) == Lower(s)
  {
  }

  predicate IsPrefix(p: String, s: String) {
    |p| <= |s| && s[..|p|] == p
  }

  /** `hay LIKE '%' || needle || '%'` with no wildcard characters in needle. */
  predicate Contains(hay: String, needle: String) {
    IsPrefix(needle, hay) || (hay != [] && Contains(hay[1..], needle))
  }

  /** Contains is the existence of a matching position. */
  lemma {:induction false} ContainsAt(hay: String, needle: String)
    ensures Contains(hay, needle) <==> exists i :: OccursAt(hay, needle, i)
  {
    if IsPrefix(needle, hay) {
      assert OccursAt(hay, needle, 0);
    } else if hay != [] {
      ContainsAt(hay[1..], needle);
      if exists i :: OccursAt(hay, needle, i) {
        var i :| OccursAt(hay, needle, i);
        assert i > 0;
        assert hay[1..][i - 1..i - 1 + |needle|] == hay[i..i + |needle|];
        assert OccursAt(hay[1..], needle, i - 1);
      }
      if Contains(hay[1..], needle) {
        var i :| OccursAt(hay[1..], needle, i);
        assert hay[i + 1..i + 1 + |needle|] == hay[1..][i..i + |needle|];
        assert OccursAt(hay, needle, i + 1);
      }
    }
  }
}
