/** Sequence operations shared by the query semantics and the handlers:
    WHERE (Filter), ORDER BY .. DESC (SortDesc), LIMIT/OFFSET (Window), and
    first-occurrence de-duplication (Distinct). */
module Seqs {
  import opened Wrappers

  function Min(a: int, b: int): int {
    if a <= b then a else b
  }

  // ------------------------------------------------------------------ lookup

  /** The first element of s that satisfies p (LIMIT 1 over a scan in storage order). */
  function Find<T>(s: seq<T>, p: T -> bool): (r: Option<T>)
    ensures r.Some? ==> r.value in s && p(r.value)
    ensures r.None? ==> forall i :: 0 <= i < |s| ==> !p(s[i])
  {
    if s == [] then None
    else if p(s[0]) then Some(s[0])
    else
      var r := Find(s[1..], p);
      assert forall i :: 1 <= i < |s| ==> s[i] == s[1..][i - 1];
      r
  }

  /** When exactly one element satisfies p, Find returns that element. */
  lemma {:induction false} FindUnique<T>(s: seq<T>, p: T -> bool, k: nat)
    requires k < |s| && p(s[k])
    requires forall i :: 0 <= i < |s| && i != k ==> !p(s[i])
    ensures Find(s, p) == Some(s[k])
  {
    if k > 0 {
      forall i | 0 <= i < |s| - 1 && i != k - 1 ensures !p(s[1..][i]) {
        assert s[1..][i] == s[i + 1];
      }
      FindUnique(s[1..], p, k - 1);
    }
  }

  // --------------------------------------------------------------------- map

  /** f applied to every element (the projection a SELECT list makes). */
  function Map<A, B>(s: seq<A>, f: A -> B): (r: seq<B>)
    ensures |r| == |s|
    ensures forall i :: 0 <= i < |s| ==> r[i] == f(s[i])
  {
    seq(|s|, i requires 0 <= i < |s| => f(s[i]))
  }

  /** Looking up through a projection that keeps the looked-up property. */
  lemma {:induction false} FindMap<A, B>(s: seq<A>, f: A -> B, p: A -> bool, q: B -> bool)
    requires forall x :: q(f(x)) == p(x)
    ensures Find(Map(s, f), q) == if Find(s, p).Some? then Some(f(Find(s, p).value)) else None
  {
    if s != [] {
      assert Map(s, f)[1..] == Map(s[1..], f);
      FindMap(s[1..], f, p, q);
    }
  }

  lemma MapAppend<A, B>(a: seq<A>, b: seq<A>, f: A -> B)
    ensures Map(a + b, f) == Map(a, f) + Map(b, f)
  {
    assert forall i :: 0 <= i < |a| ==> (a + b)[i] == a[i];
    assert forall i :: 0 <= i < |b| ==> (a + b)[|a| + i] == b[i];
  }

  /** Projecting and then filtering on the projection is filtering and then projecting. */
  lemma {:induction false} MapFilter<A, B>(s: seq<A>, f: A -> B, p: A -> bool, q: B -> bool)
    requires forall x :: p(x) == q(f(x))
    ensures Map(Filter(s, p), f) == Filter(Map(s, f), q)
  {
    if s != [] {
      var n := |s| - 1;
      MapFilter(s[..n], f, p, q);
      assert Map(s, f)[..n] == Map(s[..n], f);
      MapAppend(Filter(s[..n], p), if p(s[n]) then [s[n]] else [], f);
    }
  }

  lemma MapSorted<A, B>(s: seq<A>, f: A -> B, ka: A -> int, kb: B -> int)
    requires forall x :: ka(x) == kb(f(x))
    requires SortedDesc(s, ka)
    ensures SortedDesc(Map(s, f), kb)
  {
  }

  lemma {:induction false} MapInsert<A, B>(x: A, s: seq<A>, f: A -> B, ka: A -> int, kb: B -> int)
    requires forall y :: ka(y) == kb(f(y))
    ensures Map(Insert(x, s, ka), f) == Insert(f(x), Map(s, f), kb)
  {
    var m := Map(s, f);
    if s == [] || ka(s[0]) <= ka(x) {
      MapAppend([x], s, f);
      assert Map([x], f) == [f(x)];
      assert Insert(f(x), m, kb) == [f(x)] + m;
    } else {
      MapInsert(x, s[1..], f, ka, kb);
      assert m[1..] == Map(s[1..], f);
      assert Insert(x, s, ka) == [s[0]] + Insert(x, s[1..], ka);
      assert Insert(f(x), m, kb) == [m[0]] + Insert(f(x), m[1..], kb);
      MapAppend([s[0]], Insert(x, s[1..], ka), f);
      assert Map([s[0]], f) == [m[0]];
    }
  }

  /** Sorting commutes with a projection that keeps the sort key. */
  lemma {:induction false} MapSortDesc<A, B>(s: seq<A>, f: A -> B, ka: A -> int, kb: B -> int)
    requires forall y :: ka(y) == kb(f(y))
    ensures Map(SortDesc(s, ka), f) == SortDesc(Map(s, f), kb)
  {
    if s != [] {
      MapSortDesc(s[1..], f, ka, kb);
      assert Map(s, f)[1..] == Map(s[1..], f);
      MapInsert(s[0], SortDesc(s[1..], ka), f, ka, kb);
    }
  }

  lemma MapWindow<A, B>(s: seq<A>, f: A -> B, limit: nat, offset: nat)
    ensures Map(Window(s, limit, offset), f) == Window(Map(s, f), limit, offset)
  {
  }

  // ------------------------------------------------------------------ filter

  /** The elements of s that satisfy p, in their original order. */
  function Filter<T>(s: seq<T>, p: T -> bool): (r: seq<T>)
    ensures |r| <= |s|
  {
    if s == [] then []
    else Filter(s[..|s| - 1], p) + (if p(s[|s| - 1]) then [s[|s| - 1]] else [])
  }

  /** Filter keeps exactly the elements that satisfy p. */
  lemma {:induction false} FilterMembers<T>(s: seq<T>, p: T -> bool)
    ensures forall x :: x in Filter(s, p) ==> x in s && p(x)
    ensures forall i :: 0 <= i < |s| && p(s[i]) ==> s[i] in Filter(s, p)
  {
    if s != [] {
      var n := |s| - 1;
      FilterMembers(s[..n], p);
      assert forall i :: 0 <= i < n ==> s[i] == s[..n][i];
    }
  }

  /** Every element is kept exactly when all satisfy p, and none is kept
      exactly when none does. */
  lemma {:induction false} FilterCountExtremes<T>(s: seq<T>, p: T -> bool)
    ensures |Filter(s, p)| == |s| <==> forall i :: 0 <= i < |s| ==> p(s[i])
    ensures |Filter(s, p)| == 0 <==> forall i :: 0 <= i < |s| ==> !p(s[i])
  {
    if s != [] {
      var n := |s| - 1;
      FilterCountExtremes(s[..n], p);
      assert forall i :: 0 <= i < n ==> s[i] == s[..n][i];
    }
  }

  lemma {:induction false} FilterAppend<T>(a: seq<T>, b: seq<T>, p: T -> bool)
    ensures Filter(a + b, p) == Filter(a, p) + Filter(b, p)
    decreases |b|
  {
    if b == [] {
      assert a + b == a;
    } else {
      assert (a + b)[..|a + b| - 1] == a + b[..|b| - 1];
      FilterAppend(a, b[..|b| - 1], p);
    }
  }

  /** Two tables whose rows agree on p, row by row, have equally many rows satisfying p. */
  lemma {:induction false} FilterCountPointwise<T>(a: seq<T>, b: seq<T>, p: T -> bool)
    requires |a| == |b|
    requires forall i :: 0 <= i < |a| ==> p(a[i]) == p(b[i])
    ensures |Filter(a, p)| == |Filter(b, p)|
  {
    if a != [] {
      FilterCountPointwise(a[..|a| - 1], b[..|b| - 1], p);
    }
  }

  /** If exactly one row stops satisfying p, one fewer row satisfies p. */
  lemma {:induction false} FilterCountOneLess<T>(a: seq<T>, b: seq<T>, p: T -> bool, k: nat)
    requires |a| == |b| && k < |a|
    requires p(a[k]) && !p(b[k])
    requires forall i :: 0 <= i < |a| && i != k ==> p(a[i]) == p(b[i])
    ensures |Filter(b, p)| + 1 == |Filter(a, p)|
  {
    var n := |a| - 1;
    var a', b' := a[..n], b[..n];
    assert Filter(a, p) == Filter(a', p) + (if p(a[n]) then [a[n]] else []);
    assert Filter(b, p) == Filter(b', p) + (if p(b[n]) then [b[n]] else []);
    if k == n {
      forall i | 0 <= i < n ensures p(a'[i]) == p(b'[i]) {
        assert a'[i] == a[i] && b'[i] == b[i];
      }
      FilterCountPointwise(a', b', p);
    } else {
      forall i | 0 <= i < n && i != k ensures p(a'[i]) == p(b'[i]) {
        assert a'[i] == a[i] && b'[i] == b[i];
      }
      assert p(a[n]) == p(b[n]);
      FilterCountOneLess(a', b', p, k);
    }
  }

  /** No element satisfies p: nothing is kept. */
  lemma {:induction false} FilterNone<T>(s: seq<T>, p: T -> bool)
    requires forall i :: 0 <= i < |s| ==> !p(s[i])
    ensures Filter(s, p) == []
  {
    if s != [] {
      FilterNone(s[..|s| - 1], p);
    }
  }

  /** Exactly one element satisfies p: it alone is kept. */
  lemma {:induction false} FilterSingle<T>(s: seq<T>, p: T -> bool, k: nat)
    requires k < |s| && p(s[k])
    requires forall i :: 0 <= i < |s| && i != k ==> !p(s[i])
    ensures Filter(s, p) == [s[k]]
  {
    var n := |s| - 1;
    if k == n {
      FilterNone(s[..n], p);
    } else {
      FilterSingle(s[..n], p, k);
    }
  }

  // --------------------------------------------------------------- ordering

  /** s is in non-increasing order of key. */
  ghost predicate SortedDesc<T>(s: seq<T>, key: T -> int) {
    forall i, j :: 0 <= i < j < |s| ==> key(s[i]) >= key(s[j])
  }

  /** Inserts x ahead of the first element whose key is not larger. */
  function Insert<T>(x: T, s: seq<T>, key: T -> int): (r: seq<T>)
    ensures |r| == |s| + 1
    ensures r[0] == x || (s != [] && r[0] == s[0])
  {
    if s == [] || key(s[0]) <= key(x) then [x] + s
    else [s[0]] + Insert(x, s[1..], key)
  }

  /** Inserting into a sorted sequence keeps it sorted. */
  lemma {:induction false} InsertSorted<T>(x: T, s: seq<T>, key: T -> int)
    requires SortedDesc(s, key)
    ensures SortedDesc(Insert(x, s, key), key)
  {
    if s == [] || key(s[0]) <= key(x) {
      SortedCons(x, s, key);
    } else {
      SortedTail(s, key);
      InsertSorted(x, s[1..], key);
      var rest := Insert(x, s[1..], key);
      assert rest[0] == x || rest[0] == s[1];
      SortedCons(s[0], rest, key);
      assert Insert(x, s, key) == [s[0]] + rest;
    }
  }

  /** Inserting adds exactly x. */
  lemma {:induction false} InsertPermutes<T>(x: T, s: seq<T>, key: T -> int)
    ensures multiset(Insert(x, s, key)) == multiset(s) + multiset{x}
  {
    if s != [] && key(s[0]) > key(x) {
      InsertPermutes(x, s[1..], key);
      assert Insert(x, s, key) == [s[0]] + Insert(x, s[1..], key);
      assert s == [s[0]] + s[1..];
    }
  }

  lemma SortedCons<T>(x: T, s: seq<T>, key: T -> int)
    requires SortedDesc(s, key) && (s == [] || key(x) >= key(s[0]))
    ensures SortedDesc([x] + s, key)
  {
    var r := [x] + s;
    forall i, j | 0 <= i < j < |r| ensures key(r[i]) >= key(r[j]) {
      assert r[j] == s[j - 1];
      if i > 0 {
        assert r[i] == s[i - 1];
      } else if j > 1 {
        assert key(s[0]) >= key(s[j - 1]);
      }
    }
  }

  lemma SortedTail<T>(s: seq<T>, key: T -> int)
    requires SortedDesc(s, key) && s != []
    ensures SortedDesc(s[1..], key)
  {
    forall i, j | 0 <= i < j < |s| - 1 ensures key(s[1..][i]) >= key(s[1..][j]) {
      assert s[1..][i] == s[i + 1] && s[1..][j] == s[j + 1];
    }
  }

  /** ORDER BY key DESC: a sorted permutation of s; rows with equal keys keep
      their original relative order. */
  function SortDesc<T>(s: seq<T>, key: T -> int): (r: seq<T>)
    ensures SortedDesc(r, key)
    ensures multiset(r) == multiset(s)
    ensures |r| == |s|
  {
    if s == [] then []
    else
      var sorted := SortDesc(s[1..], key);
      InsertSorted(s[0], sorted, key);
      InsertPermutes(s[0], sorted, key);
      assert s == [s[0]] + s[1..];
      Insert(s[0], sorted, key)
  }

  // ---------------------------------------------------------- limit/offset

  /** LIMIT limit OFFSET offset: the rows at positions offset .. offset+limit-1
      that exist; an offset past the end gives no rows. */
  function Window<T>(s: seq<T>, limit: nat, offset: nat): (r: seq<T>)
    ensures |r| == if offset >= |s| then 0 else Min(limit, |s| - offset)
    ensures forall k :: 0 <= k < |r| ==> r[k] == s[offset + k]
  {
    if offset >= |s| then [] else s[offset..Min(offset + limit, |s|)]
  }

  lemma WindowSorted<T>(s: seq<T>, key: T -> int, limit: nat, offset: nat)
    requires SortedDesc(s, key)
    ensures SortedDesc(Window(s, limit, offset), key)
  {
    var r := Window(s, limit, offset);
    forall i, j | 0 <= i < j < |r| ensures key(r[i]) >= key(r[j]) {
      assert r[i] == s[offset + i] && r[j] == s[offset + j];
    }
  }

  /** The first n pages of s, each limit rows long, concatenated. */
  function Paged<T>(s: seq<T>, limit: nat, n: nat): seq<T> {
    if n == 0 then [] else Paged(s, limit, n - 1) + Window(s, limit, (n - 1) * limit)
  }

  /** Consecutive pages neither skip nor repeat a row: the first n pages are
      exactly the first n*limit rows. */
  lemma {:induction false} PagedIsPrefix<T>(s: seq<T>, limit: nat, n: nat)
    ensures Paged(s, limit, n) == s[..Min(n * limit, |s|)]
  {
    if n > 0 {
      PagedIsPrefix(s, limit, n - 1);
      var off := (n - 1) * limit;
      MulSucc(n, limit);
      PrefixThenWindow(s, limit, off, n * limit);
    }
  }

  lemma MulSucc(n: nat, limit: nat)
    requires n > 0
    ensures n * limit == (n - 1) * limit + limit
  {
  }

  /** The rows before offset followed by the window at offset are the rows
      before offset + limit. */
  lemma PrefixThenWindow<T>(s: seq<T>, limit: nat, offset: nat, end: nat)
    requires end == offset + limit
    ensures s[..Min(offset, |s|)] + Window(s, limit, offset) == s[..Min(end, |s|)]
  {
    if offset < |s| {
      assert Window(s, limit, offset) == s[offset..Min(offset + limit, |s|)];
    }
  }

  // ------------------------------------------------------------ distinctness

  ghost predicate NoDuplicates<T>(s: seq<T>) {
    forall i, j :: 0 <= i < j < |s| ==> s[i] != s[j]
  }

  /** The elements of s at their first occurrence, in order. */
  function Distinct<T(==)>(s: seq<T>): (r: seq<T>)
    ensures forall x :: x in r ==> x in s
    ensures forall x :: x in s ==> x in r
    ensures NoDuplicates(r)
  {
    if s == [] then []
    else
      var d := Distinct(s[..|s| - 1]);
      assert s == s[..|s| - 1] + [s[|s| - 1]];
      if s[|s| - 1] in d then d else d + [s[|s| - 1]]
  }

  /** A duplicate-free sequence has as many elements as its set. */
  lemma {:induction false} NoDuplicatesCard<T>(s: seq<T>)
    requires NoDuplicates(s)
    ensures |set x | x in s| == |s|
  {
    if s != [] {
      var init := s[..|s| - 1];
      NoDuplicatesCard(init);
      assert (set x | x in s) == (set x | x in init) + {s[|s| - 1]};
      assert s[|s| - 1] !in init;
    }
  }

  /** De-duplication keeps one copy of each element. */
  lemma DistinctCard<T>(s: seq<T>)
    ensures |Distinct(s)| == |set x | x in s|
  {
    var d := Distinct(s);
    NoDuplicatesCard(d);
    assert (set x | x in d) == (set x | x in s);
  }

  // ---------------------------------------------------------- traversal

  /** f applied to every element, stopping at the first error. */
  function Traverse<A, B>(s: seq<A>, f: A -> Result<B>): Result<seq<B>> {
    if s == [] then Ok([])
    else
      match Traverse(s[..|s| - 1], f)
      case Err(e) => Err(e)
      case Ok(done) =>
        match f(s[|s| - 1])
        case Err(e) => Err(e)
        case Ok(x) => Ok(done + [x])
  }

  /** Element i is the first one f fails on. */
  ghost predicate FirstError<A, B>(s: seq<A>, f: A -> Result<B>, i: nat) {
    i < |s| && f(s[i]).Err? && forall k :: 0 <= k < i ==> f(s[k]).Ok?
  }

  /** A traversal succeeds exactly when f succeeds on every element, and then
      holds f's results in order. */
  lemma {:induction false} TraverseOk<A, B>(s: seq<A>, f: A -> Result<B>)
    ensures Traverse(s, f).Ok? <==> forall k :: 0 <= k < |s| ==> f(s[k]).Ok?
    ensures Traverse(s, f).Ok? ==> |Traverse(s, f).value| == |s|
    ensures Traverse(s, f).Ok? ==> forall k :: 0 <= k < |s| ==> Traverse(s, f).value[k] == f(s[k]).value
  {
    if s != [] {
      var n := |s| - 1;
      TraverseOk(s[..n], f);
      assert forall k :: 0 <= k < n ==> s[..n][k] == s[k];
    }
  }

  /** A failed traversal reports the error of the first element f fails on. */
  lemma {:induction false} TraverseErr<A, B>(s: seq<A>, f: A -> Result<B>)
    requires Traverse(s, f).Err?
    ensures exists i: nat :: FirstError(s, f, i) && Traverse(s, f).error == f(s[i]).error
  {
    var n := |s| - 1;
    var init := s[..n];
    assert forall k :: 0 <= k < n ==> init[k] == s[k];
    if Traverse(init, f).Err? {
      TraverseErr(init, f);
      var i: nat :| FirstError(init, f, i) && Traverse(init, f).error == f(init[i]).error;
      assert FirstError(s, f, i);
    } else {
      TraverseOk(init, f);
      assert FirstError(s, f, n);
    }
  }
}
