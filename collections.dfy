/**
 * The query shapes the handlers ask of the database, on tables held as
 * sequences in insertion order: lookup by a unique field, `where`
 * filters, counts, newest-first order, `skip`/`take` pages and `orderBy`.
 */
module Collections {
  import opened Common

  function Min(a: int, b: int): int { if a <= b then a else b }

  /** `findFirst`: the first position whose row satisfies p. */
  function FindIndex<T>(s: seq<T>, p: T -> bool): (r: Option<nat>)
    ensures r.Some? ==> r.value < |s| && p(s[r.value]) && forall j :: 0 <= j < r.value ==> !p(s[j])
    ensures r.None? ==> forall j :: 0 <= j < |s| ==> !p(s[j])
  {
    if |s| == 0 then None
    else if p(s[0]) then Some(0)
    else match FindIndex(s[1..], p)
      case None => None
      case Some(k) => Some(k + 1)
  }

  /** `findMany({ where })`: the rows satisfying p, in table order. */
  function Filter<T>(s: seq<T>, p: T -> bool): (r: seq<T>)
    ensures |r| <= |s|
    ensures forall i :: 0 <= i < |r| ==> p(r[i]) && r[i] in s
    ensures forall i :: 0 <= i < |s| && p(s[i]) ==> s[i] in r
  {
    if |s| == 0 then []
    else if p(s[0]) then [s[0]] + Filter(s[1..], p)
    else Filter(s[1..], p)
  }

  lemma {:induction false} FilterAppend<T>(a: seq<T>, b: seq<T>, p: T -> bool)
    ensures Filter(a + b, p) == Filter(a, p) + Filter(b, p)
  {
    if |a| > 0 {
      assert (a + b)[1..] == a[1..] + b;
      FilterAppend(a[1..], b, p);
    } else {
      assert a + b == b;
    }
  }

  /** `count({ where })`. */
  function Count<T>(s: seq<T>, p: T -> bool): nat
  {
    if |s| == 0 then 0 else (if p(s[0]) then 1 else 0) + Count(s[1..], p)
  }

  /** Counting the matches is taking the length of the filtered rows. */
  lemma {:induction false} CountIsFilterLength<T>(s: seq<T>, p: T -> bool)
    ensures Count(s, p) == |Filter(s, p)|
  {
    if |s| > 0 {
      CountIsFilterLength(s[1..], p);
    }
  }

  /** `orderBy: { createdAt: 'desc' }` on rows stored in creation order. */
  function Reverse<T>(s: seq<T>): (r: seq<T>)
    ensures |r| == |s| && forall i :: 0 <= i < |s| ==> r[i] == s[|s| - 1 - i]
  {
    if |s| == 0 then [] else Reverse(s[1..]) + [s[0]]
  }

  lemma ReverseReverse<T>(s: seq<T>)
    ensures Reverse(Reverse(s)) == s
  {
  }

  /** Reversing a block of the reversed rows gives the mirrored block in original order. */
  lemma {:induction false} ReverseSlice<T>(s: seq<T>, lo: nat, hi: nat)
    requires lo <= hi <= |s|
    ensures Reverse(Reverse(s)[lo..hi]) == s[|s| - hi..|s| - lo]
  {
    var r := Reverse(s);
    var b := r[lo..hi];
    var m := Reverse(b);
    assert |b| == hi - lo && |m| == hi - lo;
    forall t | 0 <= t < hi - lo ensures m[t] == s[|s| - hi + t] {
      var u := hi - lo - 1 - t;
      assert m[t] == b[u];
      assert b[u] == r[lo + u];
      assert r[lo + u] == s[|s| - 1 - (lo + u)];
    }
    assert m == s[|s| - hi..|s| - lo];
  }

  // ----- skip / take pagination -----

  /** One page of a listing and the figures of its `pagination` object. */
  datatype Listing<T> = Listing(items: seq<T>, page: nat, limit: nat, total: nat, pages: nat)

  /** `skip: (page - 1) * limit, take: limit`. */
  function Page<T>(s: seq<T>, page: nat, limit: nat): (r: seq<T>)
    requires page >= 1 && limit >= 1
    ensures |r| <= limit
  {
    var lo := Min((page - 1) * limit, |s|);
    var hi := Min((page - 1) * limit + limit, |s|);
    s[lo..hi]
  }

  lemma PageElements<T>(s: seq<T>, page: nat, limit: nat)
    requires page >= 1 && limit >= 1
    ensures forall i :: 0 <= i < |Page(s, page, limit)| ==> Page(s, page, limit)[i] in s
  {
    var lo := Min((page - 1) * limit, |s|);
    forall i | 0 <= i < |Page(s, page, limit)| ensures Page(s, page, limit)[i] in s {
      assert Page(s, page, limit)[i] == s[lo + i];
    }
  }

  /** `Math.ceil(total / limit)`: the fewest pages of `limit` rows that hold `total` rows. */
  function PageCount(total: nat, limit: nat): (r: nat)
    requires limit >= 1
    ensures r * limit >= total
    ensures r > 0 ==> (r - 1) * limit < total
  {
    var q := (total + limit - 1) / limit;
    var m := (total + limit - 1) % limit;
    assert total + limit - 1 == q * limit + m && 0 <= m < limit;
    assert q * limit - limit == (q - 1) * limit;
    q
  }

  /** Pages 1 to k laid end to end. */
  function FirstPages<T>(s: seq<T>, limit: nat, k: nat): seq<T>
    requires limit >= 1
  {
    if k == 0 then [] else FirstPages(s, limit, k - 1) + Page(s, k, limit)
  }

  lemma {:induction false} FirstPagesArePrefix<T>(s: seq<T>, limit: nat, k: nat)
    requires limit >= 1
    ensures FirstPages(s, limit, k) == s[..Min(k * limit, |s|)]
  {
    if k > 0 {
      FirstPagesArePrefix(s, limit, k - 1);
      assert (k - 1) * limit + limit == k * limit;
      var lo := Min((k - 1) * limit, |s|);
      var hi := Min(k * limit, |s|);
      assert lo <= hi;
      assert s[..lo] + s[lo..hi] == s[..hi];
    }
  }

  /** The pages reported by `pagination.pages` hold every matching row exactly once, in order. */
  lemma PagesCoverAll<T>(s: seq<T>, limit: nat)
    requires limit >= 1
    ensures FirstPages(s, limit, PageCount(|s|, limit)) == s
  {
    FirstPagesArePrefix(s, limit, PageCount(|s|, limit));
  }

  /** A page past the last one is empty. */
  lemma PageAfterLastIsEmpty<T>(s: seq<T>, limit: nat, page: nat)
    requires limit >= 1 && page > PageCount(|s|, limit)
    ensures Page(s, page, limit) == []
  {
    var n := PageCount(|s|, limit);
    assert (page - 1) * limit >= n * limit by {
      assert page - 1 >= n;
      MulMonotone(n, page - 1, limit);
    }
  }

  lemma MulMonotone(a: nat, b: nat, c: nat)
    requires a <= b
    ensures a * c <= b * c
  {
  }

  /**
   * `findMany({ where, orderBy: { createdAt: 'desc' }, skip, take })` beside
   * `count({ where })`, and the `pagination` object built from them.
   */
  function Listed<T>(rows: seq<T>, p: T -> bool, page: nat, limit: nat): (r: Listing<T>)
    requires page >= 1 && limit >= 1
    ensures r.page == page && r.limit == limit && |r.items| <= limit
    ensures forall i :: 0 <= i < |r.items| ==> r.items[i] in rows && p(r.items[i])
    ensures r.total == Count(rows, p)
    ensures r.pages * limit >= r.total && (r.pages > 0 ==> (r.pages - 1) * limit < r.total)
  {
    var all := Reverse(Filter(rows, p));
    CountIsFilterLength(rows, p);
    PageElements(all, page, limit);
    Listing(Page(all, page, limit), page, limit, |all|, PageCount(|all|, limit))
  }

  /** The block of s that page `page` of size `limit` covers when s is listed newest first, in s's own order. */
  function OldestFirstPage<T>(s: seq<T>, page: nat, limit: nat): seq<T>
    requires page >= 1 && limit >= 1
  {
    var lo := Min((page - 1) * limit, |s|);
    var hi := Min((page - 1) * limit + limit, |s|);
    s[|s| - hi..|s| - lo]
  }

  /** A page of the reversed rows, reversed again, is a contiguous block of the rows in their own order. */
  lemma ReversedPageIsBlock<T>(s: seq<T>, page: nat, limit: nat)
    requires page >= 1 && limit >= 1
    ensures Reverse(Page(Reverse(s), page, limit)) == OldestFirstPage(s, page, limit)
  {
    var r := Reverse(s);
    var lo := Min((page - 1) * limit, |s|);
    var hi := Min((page - 1) * limit + limit, |s|);
    assert |r| == |s|;
    assert Page(r, page, limit) == r[lo..hi];
    ReverseSlice(s, lo, hi);
  }

  /** A page of a newest-first listing, reversed, is a contiguous block of the matching rows in table order. */
  lemma ListedPageIsBlock<T>(rows: seq<T>, p: T -> bool, page: nat, limit: nat)
    requires page >= 1 && limit >= 1
    ensures Reverse(Listed(rows, p, page, limit).items) == OldestFirstPage(Filter(rows, p), page, limit)
  {
    ReversedPageIsBlock(Filter(rows, p), page, limit);
  }

  /** Pages 1 to `pages` of a listing hold every matching row, newest first, exactly once. */
  lemma ListedCoversAll<T>(rows: seq<T>, p: T -> bool, limit: nat)
    requires limit >= 1
    ensures FirstPages(Reverse(Filter(rows, p)), limit, Listed(rows, p, 1, limit).pages) == Reverse(Filter(rows, p))
  {
    PagesCoverAll(Reverse(Filter(rows, p)), limit);
  }

  /** The newest `n` rows, oldest first. */
  function Last<T>(s: seq<T>, n: nat): seq<T>
  {
    s[|s| - Min(n, |s|)..]
  }

  /** Two rows just appended are the last two of any window of at least two. */
  lemma LastOfAppended<T>(s: seq<T>, x: T, y: T, n: nat)
    requires n >= 2
    ensures var w := Last(s + [x, y], n); |w| >= 2 && w[|w| - 2] == x && w[|w| - 1] == y
  {
  }

  // ----- orderBy on a field -----

  /** `le` is a total preorder: the comparison `orderBy` uses. */
  ghost predicate TotalPreorder<T(!new)>(le: (T, T) -> bool)
  {
    && (forall a, b :: le(a, b) || le(b, a))
    && (forall a, b, c :: le(a, b) && le(b, c) ==> le(a, c))
  }

  ghost predicate SortedBy<T>(s: seq<T>, le: (T, T) -> bool)
  {
    forall i, j :: 0 <= i < j < |s| ==> le(s[i], s[j])
  }

  function Insert<T>(x: T, s: seq<T>, le: (T, T) -> bool): seq<T>
  {
    if |s| == 0 then [x] else if le(x, s[0]) then [x] + s else [s[0]] + Insert(x, s[1..], le)
  }

  /** The rows ordered by `le`. */
  function SortBy<T>(s: seq<T>, le: (T, T) -> bool): seq<T>
  {
    if |s| == 0 then [] else Insert(s[0], SortBy(s[1..], le), le)
  }

  lemma {:induction false} InsertPermutes<T>(x: T, s: seq<T>, le: (T, T) -> bool)
    ensures multiset(Insert(x, s, le)) == multiset(s) + multiset{x}
  {
    if |s| > 0 && !le(x, s[0]) {
      InsertPermutes(x, s[1..], le);
      assert s == [s[0]] + s[1..];
    }
  }

  lemma {:induction false} InsertSorted<T(!new)>(x: T, s: seq<T>, le: (T, T) -> bool)
    requires TotalPreorder(le) && SortedBy(s, le)
    ensures SortedBy(Insert(x, s, le), le)
  {
    if |s| > 0 && !le(x, s[0]) {
      InsertSorted(x, s[1..], le);
      InsertPermutes(x, s[1..], le);
      var t := Insert(x, s[1..], le);
      forall j | 0 <= j < |t| ensures le(s[0], t[j]) {
        assert t[j] in multiset(t);
        assert t[j] == x || t[j] in multiset(s[1..]);
        if t[j] != x {
          assert t[j] in s[1..];
        }
      }
    }
  }

  /** Sorting keeps exactly the same rows. */
  lemma {:induction false} SortByPermutes<T>(s: seq<T>, le: (T, T) -> bool)
    ensures multiset(SortBy(s, le)) == multiset(s)
  {
    if |s| > 0 {
      SortByPermutes(s[1..], le);
      InsertPermutes(s[0], SortBy(s[1..], le), le);
      assert s == [s[0]] + s[1..];
    }
  }

  /** Sorting by a total preorder yields an ordered sequence. */
  lemma {:induction false} SortBySorted<T(!new)>(s: seq<T>, le: (T, T) -> bool)
    requires TotalPreorder(le)
    ensures SortedBy(SortBy(s, le), le)
  {
    if |s| > 0 {
      SortBySorted(s[1..], le);
      InsertSorted(s[0], SortBy(s[1..], le), le);
    }
  }
}
