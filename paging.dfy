/**
 * The pagination shared by every listing handler: the page/limit clamp, the
 * number of documents skipped, the page count reported as `total_pages`, and a
 * listing as `CountDocuments` plus a sorted, skipped and limited `Find`.
 */
module Paging {

  import opened Tables

  /** The largest page size a listing accepts. */
  const MaxLimit := 100
  /** The page size used when the request's is out of range (jobs, projects, events). */
  const DefaultLimit := 20
  /** The page size used by the message history when the request's is out of range. */
  const MessageLimit := 50

  /** A page number and a page size, as the handler uses them after clamping. */
  datatype Window = Window(page: int, limit: int)

  predicate Clamped(w: Window)
  {
    w.page >= 1 && 1 <= w.limit <= MaxLimit
  }

  /**
   * A page below 1 becomes 1 and a limit outside 1..100 becomes the default.  The
   * arguments are what `strconv.Atoi` returned, so an unparsable value arrives
   * here as 0 and is replaced by the same rules.
   */
  function Clamp(page: int, limit: int, defaultLimit: int): (w: Window)
    requires 1 <= defaultLimit <= MaxLimit
    ensures Clamped(w)
    ensures w.page == page <==> page >= 1
    ensures w.limit == limit <==> 1 <= limit <= MaxLimit
    ensures w.page != page ==> w.page == 1
    ensures w.limit != limit ==> w.limit == defaultLimit
  {
    Window(if page < 1 then 1 else page, if limit < 1 || limit > MaxLimit then defaultLimit else limit)
  }

  /** Clamping an already clamped window changes nothing. */
  lemma {:induction false} ClampIdempotent(w: Window, defaultLimit: int)
    requires 1 <= defaultLimit <= MaxLimit
    requires Clamped(w)
    ensures Clamp(w.page, w.limit, defaultLimit) == w
  {
  }

  /** The number of documents skipped before the requested page. */
  function Skip(w: Window): nat
    requires Clamped(w)
  {
    (w.page - 1) * w.limit
  }

  /** `total_pages`: the number of pages of `limit` documents that hold `total` documents. */
  function TotalPages(total: nat, limit: int): (n: nat)
    requires limit >= 1
    ensures total <= n * limit
    ensures n == 0 || (n - 1) * limit < total
  {
    var n := (total + limit - 1) / limit;
    assert n * limit + (total + limit - 1) % limit == total + limit - 1;
    n
  }

  /** Ceiling division is the unique page count that fits: fewer pages cannot hold all documents. */
  lemma {:induction false} TotalPagesLeast(total: nat, limit: int, m: nat)
    requires limit >= 1
    requires total <= m * limit
    ensures TotalPages(total, limit) <= m
  {
    var n := TotalPages(total, limit);
    if n > m {
      MulMono(m, n - 1, limit);
    }
  }

  lemma {:induction false} MulMono(a: int, b: int, c: nat)
    requires a <= b
    ensures a * c <= b * c
  {
  }

  /** The documents at positions skip .. skip + limit - 1 of `s`, as far as `s` reaches. */
  function Slice<T>(s: seq<T>, skip: nat, limit: nat): (r: seq<T>)
    ensures |r| == if skip >= |s| then 0 else if skip + limit <= |s| then limit else |s| - skip
    ensures forall i :: 0 <= i < |r| ==> r[i] == s[skip + i]
  {
    if skip >= |s| then [] else if skip + limit <= |s| then s[skip..skip + limit] else s[skip..]
  }

  /**
   * Every document lies on exactly one page: the one numbered i / limit + 1, at
   * position i % limit.
   */
  lemma {:induction false} PageOfIndex<T>(s: seq<T>, limit: int, i: nat)
    requires 1 <= limit <= MaxLimit && i < |s|
    ensures var w := Window(i / limit + 1, limit);
            Clamped(w) && i % limit < |Slice(s, Skip(w), limit)| && Slice(s, Skip(w), limit)[i % limit] == s[i]
  {
    var w := Window(i / limit + 1, limit);
    assert Skip(w) == (i / limit) * limit;
    assert Skip(w) + i % limit == i;
  }

  /** A page holds documents exactly when its number is at most `total_pages`. */
  lemma {:induction false} NonEmptyPages<T>(s: seq<T>, w: Window)
    requires Clamped(w)
    ensures |Slice(s, Skip(w), w.limit)| > 0 <==> w.page <= TotalPages(|s|, w.limit)
  {
    var n := TotalPages(|s|, w.limit);
    if w.page <= n {
      MulMono(w.page - 1, n - 1, w.limit);
    } else {
      MulMono(n, w.page - 1, w.limit);
    }
  }

  // ---------------------------------------------------------------------------
  // Sorting, as `SetSort` orders a result

  /** `s` is ordered by non-decreasing `key`; a descending sort uses the negated key. */
  predicate Ascending<T>(s: seq<T>, key: T -> int)
  {
    forall i, j :: 0 <= i < j < |s| ==> key(s[i]) <= key(s[j])
  }

  /** Placing the first document ahead of an ordered insertion into the rest keeps the order. */
  lemma {:induction false} InsertStep<T>(x: T, s: seq<T>, t: seq<T>, key: T -> int)
    requires s != [] && Ascending(s, key) && key(s[0]) < key(x)
    requires Ascending(t, key) && multiset(t) == multiset(s[1..]) + multiset{x}
    ensures Ascending([s[0]] + t, key)
    ensures multiset([s[0]] + t) == multiset(s) + multiset{x}
  {
    assert s == [s[0]] + s[1..];
    forall i | 0 <= i < |t| ensures key(s[0]) <= key(t[i]) {
      assert t[i] in multiset(t);
      if t[i] != x {
        assert t[i] in multiset(s[1..]);
        var k :| 0 <= k < |s[1..]| && s[1..][k] == t[i];
        assert s[k + 1] == t[i];
      }
    }
    var r := [s[0]] + t;
    forall i, j | 0 <= i < j < |r| ensures key(r[i]) <= key(r[j]) {
      assert r[j] == t[j - 1];
      if i > 0 {
        assert r[i] == t[i - 1];
      }
    }
  }

  function Insert<T>(x: T, s: seq<T>, key: T -> int): (r: seq<T>)
    requires Ascending(s, key)
    ensures Ascending(r, key)
    ensures multiset(r) == multiset(s) + multiset{x}
  {
    if s == [] then [x]
    else if key(x) <= key(s[0]) then [x] + s
    else
      var t := Insert(x, s[1..], key);
      InsertStep(x, s, t, key);
      [s[0]] + t
  }

  /** A stable insertion sort by `key`: ordered, and a permutation of its input. */
  function SortBy<T>(s: seq<T>, key: T -> int): (r: seq<T>)
    ensures Ascending(r, key)
    ensures multiset(r) == multiset(s)
  {
    if s == [] then [] else
      assert s == [s[0]] + s[1..];
      Insert(s[0], SortBy(s[1..], key), key)
  }

  // ---------------------------------------------------------------------------
  // A listing response

  /** The `data` of a listing: the page's documents and the `pagination` object. */
  datatype Listing<T> = Listing(items: seq<T>, page: int, limit: int, total: nat, totalPages: nat)

  /** All documents the filter admits, in the listing's sort order. */
  function Ordered<T>(s: seq<T>, keep: T -> bool, key: T -> int): (r: seq<T>)
    ensures Ascending(r, key)
    ensures |r| == CountWhere(s, keep)
    ensures multiset(r) == multiset(Select(s, keep))
  {
    SortBy(Select(s, keep), key)
  }

  /**
   * `CountDocuments(filter)` for the total, then `Find(filter)` sorted by `key`,
   * skipping the earlier pages and limited to one page.
   */
  function List<T>(s: seq<T>, keep: T -> bool, key: T -> int, w: Window): (r: Listing<T>)
    requires Clamped(w)
    ensures r.page == w.page && r.limit == w.limit
    ensures r.total == CountWhere(s, keep)
    ensures r.totalPages == TotalPages(r.total, w.limit)
    ensures r.items == Slice(Ordered(s, keep, key), Skip(w), w.limit)
    ensures |r.items| <= w.limit
  {
    var all := Ordered(s, keep, key);
    Listing(Slice(all, Skip(w), w.limit), w.page, w.limit, |all|, TotalPages(|all|, w.limit))
  }

  /** Every listed document is a stored document the filter admits, and a page is in sort order. */
  lemma {:induction false} ListedDocuments<T>(s: seq<T>, keep: T -> bool, key: T -> int, w: Window)
    requires Clamped(w)
    ensures var r := List(s, keep, key, w);
            Ascending(r.items, key) &&
            forall i :: 0 <= i < |r.items| ==> r.items[i] in s && keep(r.items[i])
  {
    var all := Ordered(s, keep, key);
    var sel := Select(s, keep);
    var items := List(s, keep, key, w).items;
    forall i | 0 <= i < |items|
      ensures items[i] in s && keep(items[i])
    {
      assert items[i] == all[Skip(w) + i];
      assert all[Skip(w) + i] in multiset(all);
      assert items[i] in multiset(sel);
      var k :| 0 <= k < |sel| && sel[k] == items[i];
    }
  }

  /**
   * Walking the pages 1 .. total_pages returns every admitted document exactly
   * once: the document at position i of the sort order is on page i / limit + 1.
   */
  lemma {:induction false} ListingCoversAll<T>(s: seq<T>, keep: T -> bool, key: T -> int, limit: int, i: nat)
    requires 1 <= limit <= MaxLimit && i < CountWhere(s, keep)
    ensures var w := Window(i / limit + 1, limit);
            Clamped(w) && w.page <= TotalPages(CountWhere(s, keep), limit) &&
            i % limit < |List(s, keep, key, w).items| &&
            List(s, keep, key, w).items[i % limit] == Ordered(s, keep, key)[i]
  {
    var all := Ordered(s, keep, key);
    var w := Window(i / limit + 1, limit);
    PageOfIndex(all, limit, i);
    NonEmptyPages(all, w);
  }
}
