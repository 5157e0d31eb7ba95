/** The collection operations the controllers chain together: filter-and-project (`where` +
    `select`, `filter`), `sum`, the stable `sortByDesc`, and `slice`/`forPage` pagination with
    `ceil(total / perPage)` as the last page. */
module Collections {
  import opened Schema

  // ---------------------------------------------------------------------------------------
  // Filter and project

  /** Keeps, in order, the projections `f(a)` that are present: a query's `where` and
      `select` in one pass. */
  function FilterMap<A, B>(rows: seq<A>, f: A -> Option<B>): (r: seq<B>)
    ensures |r| <= |rows|
    ensures forall a | a in rows && f(a).Some? :: f(a).value in r
    ensures forall b | b in r :: exists a | a in rows :: f(a) == Some(b)
  {
    if rows == [] then []
    else
      var rest := FilterMap(rows[1..], f);
      assert forall a | a in rows[1..] :: a in rows;
      match f(rows[0])
      case Some(b) => [b] + rest
      case None => rest
  }

  lemma {:induction false} FilterMapAppend<A, B>(a: seq<A>, b: seq<A>, f: A -> Option<B>)
    ensures FilterMap(a + b, f) == FilterMap(a, f) + FilterMap(b, f)
  {
    if a != [] {
      assert (a + b)[0] == a[0];
      assert (a + b)[1..] == a[1..] + b;
      FilterMapAppend(a[1..], b, f);
    } else {
      assert a + b == b;
    }
  }

  ghost predicate AscendingBy<T>(s: seq<T>, key: T -> int) {
    forall i, j | 0 <= i < j < |s| :: key(s[i]) <= key(s[j])
  }

  lemma AscendingCons<T>(h: T, t: seq<T>, key: T -> int)
    requires AscendingBy(t, key)
    requires forall y | y in t :: key(h) <= key(y)
    ensures AscendingBy([h] + t, key)
  {
    var r := [h] + t;
    forall i, j | 0 <= i < j < |r| ensures key(r[i]) <= key(r[j]) {
      assert r[j] == t[j - 1];
      if i > 0 {
        assert r[i] == t[i - 1];
      }
    }
  }

  /** A bound on the keys of the rows bounds the keys of what a key-preserving projection
      keeps. */
  lemma FilterMapAbove<A, B>(rows: seq<A>, f: A -> Option<B>, ka: A -> int, kb: B -> int, m: int)
    requires forall a | a in rows && f(a).Some? :: kb(f(a).value) == ka(a)
    requires forall a | a in rows :: m <= ka(a)
    ensures forall y | y in FilterMap(rows, f) :: m <= kb(y)
  {
    forall y | y in FilterMap(rows, f) ensures m <= kb(y) {
      var a :| a in rows && f(a) == Some(y);
    }
  }

  /** Filtering with a key-preserving projection keeps ascending input ascending. */
  lemma {:induction false} FilterMapAscending<A, B>(rows: seq<A>, f: A -> Option<B>, ka: A -> int, kb: B -> int)
    requires forall a | a in rows && f(a).Some? :: kb(f(a).value) == ka(a)
    requires AscendingBy(rows, ka)
    ensures AscendingBy(FilterMap(rows, f), kb)
  {
    if rows != [] {
      var tail := rows[1..];
      assert forall k | 0 <= k < |tail| :: tail[k] == rows[k + 1];
      assert AscendingBy(tail, ka);
      assert forall a | a in tail :: a in rows;
      FilterMapAscending(tail, f, ka, kb);
      if f(rows[0]).Some? {
        assert forall a | a in tail :: ka(rows[0]) <= ka(a);
        FilterMapAbove(tail, f, ka, kb, ka(rows[0]));
        AscendingCons(f(rows[0]).value, FilterMap(tail, f), kb);
      }
    }
  }

  /** Projections that agree on every row filter the same. */
  lemma {:induction false} FilterMapPointwise<A, B>(rows: seq<A>, f: A -> Option<B>, g: A -> Option<B>)
    requires forall a | a in rows :: f(a) == g(a)
    ensures FilterMap(rows, f) == FilterMap(rows, g)
  {
    if rows != [] {
      assert forall a | a in rows[1..] :: a in rows;
      FilterMapPointwise(rows[1..], f, g);
    }
  }

  // ---------------------------------------------------------------------------------------
  // Sums

  /** `sum(column)` over a sequence of rows. */
  function Sum<T>(s: seq<T>, f: T -> int): int {
    if s == [] then 0 else f(s[0]) + Sum(s[1..], f)
  }

  lemma {:induction false} SumAppend<T>(a: seq<T>, b: seq<T>, f: T -> int)
    ensures Sum(a + b, f) == Sum(a, f) + Sum(b, f)
  {
    if a != [] {
      assert (a + b)[0] == a[0];
      assert (a + b)[1..] == a[1..] + b;
      SumAppend(a[1..], b, f);
    } else {
      assert a + b == b;
    }
  }

  /** Summands that agree on every row give the same sum. */
  lemma {:induction false} SumPointwise<T>(s: seq<T>, f: T -> int, g: T -> int)
    requires forall x | x in s :: f(x) == g(x)
    ensures Sum(s, f) == Sum(s, g)
  {
    if s != [] {
      assert forall x | x in s[1..] :: x in s;
      SumPointwise(s[1..], f, g);
    }
  }

  lemma {:induction false} SumZero<T>(s: seq<T>, f: T -> int)
    requires forall x | x in s :: f(x) == 0
    ensures Sum(s, f) == 0
  {
    if s != [] {
      assert forall x | x in s[1..] :: x in s;
      SumZero(s[1..], f);
    }
  }

  lemma {:induction false} SumNonNegative<T>(s: seq<T>, f: T -> int)
    requires forall x | x in s :: f(x) >= 0
    ensures Sum(s, f) >= 0
  {
    if s != [] {
      assert forall x | x in s[1..] :: x in s;
      SumNonNegative(s[1..], f);
    }
  }

  // ---------------------------------------------------------------------------------------
  // Stable descending sort (`sortByDesc`)

  ghost predicate DescendingBy<T>(s: seq<T>, key: T -> int) {
    forall i, j | 0 <= i < j < |s| :: key(s[i]) >= key(s[j])
  }

  lemma ConsDescending<T>(h: T, t: seq<T>, key: T -> int)
    requires DescendingBy(t, key)
    requires t == [] || key(h) >= key(t[0])
    ensures DescendingBy([h] + t, key)
  {
    var r := [h] + t;
    forall i, j | 0 <= i < j < |r| ensures key(r[i]) >= key(r[j]) {
      if i == 0 {
        assert r[j] == t[j - 1];
      } else {
        assert r[i] == t[i - 1] && r[j] == t[j - 1];
      }
    }
  }

  /** Places x after every element of the (descending) s whose key is larger and before the
      first whose key is not: x goes ahead of the elements that tie with it. */
  function InsertDesc<T>(x: T, s: seq<T>, key: T -> int): (r: seq<T>)
    requires DescendingBy(s, key)
    ensures |r| == |s| + 1
    ensures r[0] == x || (|s| > 0 && r[0] == s[0])
    ensures multiset(r) == multiset(s) + multiset{x}
    ensures DescendingBy(r, key)
  {
    if s == [] || key(s[0]) <= key(x) then
      ConsDescending(x, s, key);
      [x] + s
    else
      var rest := InsertDesc(x, s[1..], key);
      assert s == [s[0]] + s[1..];
      ConsDescending(s[0], rest, key);
      [s[0]] + rest
  }

  /** Insertion sort, descending by key; equal keys keep their input order. */
  function SortDesc<T>(s: seq<T>, key: T -> int): (r: seq<T>)
    ensures multiset(r) == multiset(s)
    ensures DescendingBy(r, key)
  {
    if s == [] then []
    else
      assert s == [s[0]] + s[1..];
      InsertDesc(s[0], SortDesc(s[1..], key), key)
  }

  /** The elements of s whose key is k, in their order in s. */
  function WithKey<T>(s: seq<T>, key: T -> int, k: int): seq<T> {
    if s == [] then []
    else (if key(s[0]) == k then [s[0]] else []) + WithKey(s[1..], key, k)
  }

  lemma {:induction false} WithKeyAppend<T>(a: seq<T>, b: seq<T>, key: T -> int, k: int)
    ensures WithKey(a + b, key, k) == WithKey(a, key, k) + WithKey(b, key, k)
  {
    if a != [] {
      assert (a + b)[0] == a[0];
      assert (a + b)[1..] == a[1..] + b;
      WithKeyAppend(a[1..], b, key, k);
    } else {
      assert a + b == b;
    }
  }

  lemma {:induction false} InsertDescStable<T>(x: T, s: seq<T>, key: T -> int, k: int)
    requires DescendingBy(s, key)
    ensures WithKey(InsertDesc(x, s, key), key, k) == WithKey([x] + s, key, k)
  {
    if s != [] && key(s[0]) > key(x) {
      var rest := InsertDesc(x, s[1..], key);
      var sx := if key(x) == k then [x] else [];
      var s0 := if key(s[0]) == k then [s[0]] else [];
      assert sx == [] || s0 == [];
      calc {
        WithKey(InsertDesc(x, s, key), key, k);
        { assert ([s[0]] + rest)[1..] == rest; }
        s0 + WithKey(rest, key, k);
        { InsertDescStable(x, s[1..], key, k);
          assert ([x] + s[1..])[1..] == s[1..]; }
        s0 + (sx + WithKey(s[1..], key, k));
        sx + (s0 + WithKey(s[1..], key, k));
        { assert ([x] + s)[1..] == s; }
        WithKey([x] + s, key, k);
      }
    }
  }

  /** Stability: among the elements with one key, the sort keeps the input order. */
  lemma {:induction false} SortDescStable<T>(s: seq<T>, key: T -> int, k: int)
    ensures WithKey(SortDesc(s, key), key, k) == WithKey(s, key, k)
  {
    if s != [] {
      SortDescStable(s[1..], key, k);
      InsertDescStable(s[0], SortDesc(s[1..], key), key, k);
      assert ([s[0]] + SortDesc(s[1..], key))[1..] == SortDesc(s[1..], key);
    }
  }

  // ---------------------------------------------------------------------------------------
  // Pagination

  function Min(a: int, b: int): int {
    if a <= b then a else b
  }

  /** `ceil(n / d)` for a positive d. */
  function CeilDiv(n: nat, d: nat): (q: nat)
    requires d >= 1
    ensures q * d >= n
    ensures q == 0 || (q - 1) * d < n
  {
    var q := (n + d - 1) / d;
    assert (n + d - 1) == q * d + (n + d - 1) % d;
    q
  }

  lemma {:induction false} MulMonotone(a: nat, b: nat, d: nat)
    requires a <= b
    ensures a * d <= b * d
  {
    assert b * d == a * d + (b - a) * d;
  }

  /** `m` pages of `d` rows hold all `n` rows exactly when `m` reaches `ceil(n / d)`. */
  lemma {:induction false} CeilDivLeast(n: nat, d: nat, m: nat)
    requires d >= 1
    ensures m * d >= n <==> m >= CeilDiv(n, d)
  {
    var q := CeilDiv(n, d);
    if m >= q {
      MulMonotone(q, m, d);
    } else {
      MulMonotone(m, q - 1, d);
    }
  }

  /** `(page - 1) * perPage`, the offset of a 1-based page. */
  function Offset(page: nat, perPage: nat): nat
    requires page >= 1
  {
    (page - 1) * perPage
  }

  /** `slice(offset, perPage)` (or `forPage(page, perPage)`) followed by `values()`. */
  function Page<T>(s: seq<T>, page: nat, perPage: nat): (r: seq<T>)
    requires page >= 1
    ensures |r| == if Offset(page, perPage) >= |s| then 0 else Min(perPage, |s| - Offset(page, perPage))
    ensures forall i | 0 <= i < |r| :: r[i] == s[Offset(page, perPage) + i]
  {
    var offset := Offset(page, perPage);
    if offset >= |s| then [] else s[offset..Min(offset + perPage, |s|)]
  }

  /** A page holds rows exactly when it is between the first and the last page. */
  lemma {:induction false} PageEmptyIffPastLast<T>(s: seq<T>, page: nat, perPage: nat)
    requires page >= 1 && perPage >= 1
    ensures Page(s, page, perPage) == [] <==> page > CeilDiv(|s|, perPage)
  {
    CeilDivLeast(|s|, perPage, page - 1);
  }

  /** The pages from `page` on, concatenated. */
  function PagesFrom<T>(s: seq<T>, page: nat, perPage: nat): seq<T>
    requires page >= 1 && perPage >= 1
    decreases |s| - Min(Offset(page, perPage), |s|)
  {
    if Offset(page, perPage) >= |s| then []
    else
      assert Offset(page + 1, perPage) == Offset(page, perPage) + perPage;
      Page(s, page, perPage) + PagesFrom(s, page + 1, perPage)
  }

  /** Reading every page in turn gives back the whole sequence, each row once. */
  lemma {:induction false} PagesReassemble<T>(s: seq<T>, page: nat, perPage: nat)
    requires page >= 1 && perPage >= 1
    ensures PagesFrom(s, page, perPage) == s[Min(Offset(page, perPage), |s|)..]
    decreases |s| - Min(Offset(page, perPage), |s|)
  {
    var offset := Offset(page, perPage);
    if offset < |s| {
      assert Offset(page + 1, perPage) == offset + perPage;
      PagesReassemble(s, page + 1, perPage);
      var end := Min(offset + perPage, |s|);
      assert Page(s, page, perPage) == s[offset..end];
      assert s[offset..] == s[offset..end] + s[end..];
    }
  }

  /** PHP `array_slice($s, $offset, $length)`, which Laravel's `slice` calls: a negative
      offset counts from the end, a negative length stops that many rows before the end. */
  function Slice<T>(s: seq<T>, offset: int, length: int): (r: seq<T>)
    ensures |r| <= |s|
    ensures forall x | x in r :: x in s
    ensures length >= 0 ==> |r| <= length
    ensures 0 <= offset <= |s| && length >= 0 ==> |r| == Min(length, |s| - offset)
    ensures offset > |s| ==> r == []
    ensures offset <= |s| && length >= 0 ==>
      var start := SliceStart(|s|, offset);
      r == s[start..start + Min(length, |s| - start)]
    ensures offset <= |s| && length < 0 ==>
      var start := SliceStart(|s|, offset);
      r == if |s| + length <= start then [] else s[start..|s| + length]
  {
    var n := |s|;
    if offset > n then []
    else
      var start := SliceStart(n, offset);
      var count := if length < 0 then n - start + length else Min(length, n - start);
      if count <= 0 then [] else s[start..start + count]
  }

  /** Where `array_slice` starts in n rows: at a non-negative offset, or that many rows back
      from the end, but never before the first row. */
  function SliceStart(n: nat, offset: int): (start: nat)
    requires offset <= n
    ensures start <= n
    ensures 0 <= offset ==> start == offset
    ensures offset < 0 ==> start == if n + offset >= 0 then n + offset else 0
  {
    if offset >= 0 then offset else if n + offset >= 0 then n + offset else 0
  }

  /** From the first page on, a slice at the page's offset is that page. */
  lemma SliceIsPage<T>(s: seq<T>, page: int, perPage: nat)
    requires page >= 1
    ensures Slice(s, Offset(page, perPage), perPage) == Page(s, page, perPage)
  {
  }

  /** Before the first page, the offset is negative and the slice counts from the end: page 0
      holds the last `perPage` rows. */
  lemma SliceOfPageZero<T>(s: seq<T>, perPage: nat)
    requires perPage >= 1
    ensures Slice(s, (0 - 1) * perPage, perPage) == s[|s| - Min(perPage, |s|)..]
  {
  }

  /** Laravel's `forPage`: the offset is clamped at 0 before slicing. */
  function ForPage<T>(s: seq<T>, page: int, perPage: int): (r: seq<T>)
    ensures |r| <= |s|
    ensures forall x | x in r :: x in s
    ensures page >= 1 && perPage >= 0 ==> r == Page(s, page, perPage)
  {
    var offset := (page - 1) * perPage;
    assert page >= 1 && perPage >= 0 ==> Slice(s, offset, perPage) == Page(s, page, perPage) by {
      if page >= 1 && perPage >= 0 {
        SliceIsPage(s, page, perPage);
      }
    }
    Slice(s, if offset < 0 then 0 else offset, perPage)
  }

  /** With a positive page size, every page up to the first is the first page. */
  lemma ForPageBeforeFirst<T>(s: seq<T>, page: int, perPage: nat)
    requires page <= 1
    ensures ForPage(s, page, perPage) == Page(s, 1, perPage)
  {
    assert (page - 1) * perPage <= 0 by {
      MulMonotone(0, 1 - page, perPage);
    }
  }

  /** `ceil(total / perPage)`: the least integer at or above the quotient. PHP refuses a zero
      divisor. */
  function LastPage(total: nat, perPage: int): (r: int)
    requires perPage != 0
    ensures perPage > 0 ==> r * perPage >= total && (r - 1) * perPage < total
    ensures perPage < 0 ==> r * perPage <= total && (r - 1) * perPage > total
  {
    if perPage > 0 then CeilDiv(total, perPage)
    else
      var d := -perPage;
      var q := total / d;
      assert total == q * d + total % d;
      assert (-q) * perPage == q * d;
      assert (-q - 1) * perPage == q * d + d;
      -q
  }

  /** One page of a listing with the counts the response reports beside it. */
  datatype Listing<T> = Listing(data: seq<T>, total: nat, perPage: int, currentPage: int, lastPage: int)

  /** The page window the response shows: `slice(($page - 1) * $perPage, $perPage)`. A zero
      page size makes `ceil($total / $perPage)` fail, so there is no listing. */
  function SlicedListing<T>(s: seq<T>, page: int, perPage: int): (r: Option<Listing<T>>)
    ensures r.None? <==> perPage == 0
    ensures r.Some? ==> r.value.total == |s| && r.value.perPage == perPage && r.value.currentPage == page
    ensures r.Some? && perPage > 0 ==> r.value.lastPage == CeilDiv(|s|, perPage)
    ensures r.Some? && perPage > 0 ==> |r.value.data| <= perPage
    ensures r.Some? && page >= 1 && perPage > 0 ==>
      r.value.data == Page(s, page, perPage) && (r.value.data == [] <==> page > r.value.lastPage)
    ensures r.Some? && page == 0 && perPage > 0 ==> r.value.data == s[|s| - Min(perPage, |s|)..]
  {
    if perPage == 0 then None
    else
      var data := Slice(s, (page - 1) * perPage, perPage);
      assert page >= 1 && perPage > 0 ==> data == Page(s, page, perPage) by {
        if page >= 1 && perPage > 0 {
          SliceIsPage(s, page, perPage);
        }
      }
      assert page >= 1 && perPage > 0 ==> (data == [] <==> page > CeilDiv(|s|, perPage)) by {
        if page >= 1 && perPage > 0 {
          PageEmptyIffPastLast(s, page, perPage);
        }
      }
      assert page == 0 && perPage > 0 ==> data == s[|s| - Min(perPage, |s|)..] by {
        if page == 0 && perPage > 0 {
          SliceOfPageZero(s, perPage);
        }
      }
      Some(Listing(data, |s|, perPage, page, LastPage(|s|, perPage)))
  }

  /** The page window `forPage($page, $perPage)` shows, with the same counts. */
  function PagedListing<T>(s: seq<T>, page: int, perPage: int): (r: Option<Listing<T>>)
    ensures r.None? <==> perPage == 0
    ensures r.Some? ==> r.value.total == |s| && r.value.perPage == perPage && r.value.currentPage == page
    ensures r.Some? ==> forall x | x in r.value.data :: x in s
    ensures r.Some? && perPage > 0 ==> r.value.lastPage == CeilDiv(|s|, perPage)
    ensures r.Some? && perPage > 0 ==> |r.value.data| <= perPage
    ensures r.Some? && page >= 1 && perPage > 0 ==>
      r.value.data == Page(s, page, perPage) && (r.value.data == [] <==> page > r.value.lastPage)
    ensures r.Some? && page <= 1 && perPage > 0 ==> r.value.data == Page(s, 1, perPage)
  {
    if perPage == 0 then None
    else
      var data := ForPage(s, page, perPage);
      assert page >= 1 && perPage > 0 ==> (data == [] <==> page > CeilDiv(|s|, perPage)) by {
        if page >= 1 && perPage > 0 {
          PageEmptyIffPastLast(s, page, perPage);
        }
      }
      assert page <= 1 && perPage > 0 ==> data == Page(s, 1, perPage) by {
        if page <= 1 && perPage > 0 {
          ForPageBeforeFirst(s, page, perPage);
        }
      }
      Some(Listing(data, |s|, perPage, page, LastPage(|s|, perPage)))
  }

  // ---------------------------------------------------------------------------------------
  // Sums over permutations, and `distinct`

  lemma {:induction false} SumRemoveAt<T>(b: seq<T>, i: nat, f: T -> int)
    requires i < |b|
    ensures Sum(b, f) == f(b[i]) + Sum(b[..i] + b[i + 1..], f)
  {
    if i == 0 {
      assert b[..0] + b[1..] == b[1..];
    } else {
      var t := b[1..];
      SumRemoveAt(t, i - 1, f);
      var rest := b[..i] + b[i + 1..];
      assert rest[0] == b[0] && rest[1..] == t[..i - 1] + t[i..];
    }
  }

  lemma MultisetRemoveAt<T>(b: seq<T>, i: nat)
    requires i < |b|
    ensures multiset(b[..i] + b[i + 1..]) == multiset(b) - multiset{b[i]}
  {
    assert b == b[..i] + [b[i]] + b[i + 1..];
  }

  /** A sum does not depend on the order of the rows. */
  lemma {:induction false} SumPermutation<T>(a: seq<T>, b: seq<T>, f: T -> int)
    requires multiset(a) == multiset(b)
    ensures Sum(a, f) == Sum(b, f)
  {
    if a == [] {
      assert |b| == |multiset(b)| == 0;
    } else {
      assert a[0] in multiset(b);
      var i :| 0 <= i < |b| && b[i] == a[0];
      MultisetRemoveAt(b, i);
      assert a == [a[0]] + a[1..];
      assert multiset(a[1..]) == multiset(a) - multiset{a[0]};
      SumPermutation(a[1..], b[..i] + b[i + 1..], f);
      SumRemoveAt(b, i, f);
    }
  }

  /** SQL `DISTINCT`: the rows of s without repeats, each kept where it first occurs. */
  function Distinct<T(==)>(s: seq<T>): (r: seq<T>)
    ensures forall x | x in s :: x in r
    ensures forall x | x in r :: x in s
    ensures forall i, j | 0 <= i < j < |r| :: r[i] != r[j]
  {
    if s == [] then []
    else
      var rest := Distinct(s[..|s| - 1]);
      assert s == s[..|s| - 1] + [s[|s| - 1]];
      if s[|s| - 1] in rest then rest else rest + [s[|s| - 1]]
  }
}
