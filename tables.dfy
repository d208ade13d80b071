/**
 * In-memory stand-ins for the MongoDB collections: a collection is a sequence of
 * documents in store order, `FindOne` without a sort returns the first match, and
 * `CountDocuments` counts the matches.
 */
module Tables {

  import opened Wrappers

  /** The position of the first document satisfying `p`, as `FindOne` picks it. */
  function FirstWhere<T>(s: seq<T>, p: T -> bool): (r: Option<nat>)
    ensures r.Some? ==> r.value < |s| && p(s[r.value])
    ensures r.Some? ==> forall i :: 0 <= i < r.value ==> !p(s[i])
    ensures r.None? <==> forall i :: 0 <= i < |s| ==> !p(s[i])
  {
    if s == [] then None
    else if p(s[0]) then Some(0)
    else
      var t := FirstWhere(s[1..], p);
      if t.None? then None else Some(t.value + 1)
  }

  /** The number of documents satisfying `p`. */
  function CountWhere<T>(s: seq<T>, p: T -> bool): (n: nat)
    ensures n <= |s|
    ensures n == 0 <==> forall i :: 0 <= i < |s| ==> !p(s[i])
  {
    if s == [] then 0
    else (if p(s[0]) then 1 else 0) + CountWhere(s[1..], p)
  }

  /** The matching documents in store order, as an unsorted `Find` returns them. */
  function Select<T>(s: seq<T>, p: T -> bool): (r: seq<T>)
    ensures |r| == CountWhere(s, p)
    ensures forall i :: 0 <= i < |r| ==> r[i] in s && p(r[i])
    ensures forall i :: 0 <= i < |s| && p(s[i]) ==> s[i] in r
  {
    if s == [] then []
    else (if p(s[0]) then [s[0]] else []) + Select(s[1..], p)
  }

  lemma {:induction false} SelectAppend<T>(s: seq<T>, x: T, p: T -> bool)
    ensures Select(s + [x], p) == Select(s, p) + (if p(x) then [x] else [])
  {
    if s != [] {
      assert (s + [x])[1..] == s[1..] + [x];
      SelectAppend(s[1..], x, p);
    }
  }

  /** Extending a prefix by one document extends its selection by that document when it matches. */
  lemma {:induction false} SelectPrefix<T>(s: seq<T>, i: nat, p: T -> bool)
    requires i < |s|
    ensures Select(s[..i + 1], p) == Select(s[..i], p) + (if p(s[i]) then [s[i]] else [])
  {
    assert s[..i + 1] == s[..i] + [s[i]];
    SelectAppend(s[..i], s[i], p);
  }

  lemma {:induction false} CountAppend<T>(s: seq<T>, x: T, p: T -> bool)
    ensures CountWhere(s + [x], p) == CountWhere(s, p) + (if p(x) then 1 else 0)
  {
    if s != [] {
      assert (s + [x])[1..] == s[1..] + [x];
      CountAppend(s[1..], x, p);
    }
  }

  /** Replacing one document changes the count by what the old and new documents contribute. */
  lemma {:induction false} CountUpdate<T>(s: seq<T>, k: nat, x: T, p: T -> bool)
    requires k < |s|
    ensures CountWhere(s[k := x], p) ==
            CountWhere(s, p) - (if p(s[k]) then 1 else 0) + (if p(x) then 1 else 0)
  {
    if k == 0 {
      assert s[k := x][1..] == s[1..];
    } else {
      assert s[k := x][1..] == s[1..][k - 1 := x];
      CountUpdate(s[1..], k - 1, x, p);
    }
  }

  /** Removing one document lowers the count by what that document contributed. */
  lemma {:induction false} CountRemove<T>(s: seq<T>, k: nat, p: T -> bool)
    requires k < |s|
    ensures CountWhere(s[..k] + s[k + 1..], p) == CountWhere(s, p) - (if p(s[k]) then 1 else 0)
  {
    if k == 0 {
      assert s[..k] + s[k + 1..] == s[1..];
    } else {
      assert (s[..k] + s[k + 1..])[1..] == s[1..][..k - 1] + s[1..][k..];
      CountRemove(s[1..], k - 1, p);
    }
  }

  /** Two conditions that agree on every document give the same count. */
  lemma {:induction false} CountSame<T>(s: seq<T>, p: T -> bool, q: T -> bool)
    requires forall i :: 0 <= i < |s| ==> p(s[i]) == q(s[i])
    ensures CountWhere(s, p) == CountWhere(s, q)
  {
    if s != [] {
      CountSame(s[1..], p, q);
    }
  }
  /** Appending a document moves the first match only when there was none before. */
  lemma {:induction false} FirstWhereAppend<T>(s: seq<T>, x: T, p: T -> bool)
    ensures FirstWhere(s + [x], p) ==
            if FirstWhere(s, p).Some? then FirstWhere(s, p) else if p(x) then Some(|s|) else None
  {
    var r := FirstWhere(s + [x], p);
    var f := FirstWhere(s, p);
    if f.Some? {
      assert (s + [x])[f.value] == s[f.value];
      assert r.Some? && r.value <= f.value;
      assert forall i :: 0 <= i < f.value ==> (s + [x])[i] == s[i];
    } else {
      assert forall i :: 0 <= i < |s| ==> (s + [x])[i] == s[i];
      if p(x) {
        assert (s + [x])[|s|] == x;
      }
    }
  }

  /** Removing the document at `j` removes one copy of it from the multiset. */
  lemma {:induction false} MultisetRemove<T>(b: seq<T>, j: nat)
    requires j < |b|
    ensures multiset(b[..j] + b[j + 1..]) == multiset(b) - multiset{b[j]}
  {
    assert b == b[..j] + [b[j]] + b[j + 1..];
  }

  /** Reordering the documents does not change a count. */
  lemma {:induction false} CountPermutation<T>(a: seq<T>, b: seq<T>, p: T -> bool)
    requires multiset(a) == multiset(b)
    ensures CountWhere(a, p) == CountWhere(b, p)
    decreases |a|
  {
    if a == [] {
      assert |b| == |multiset(b)| == 0;
    } else {
      assert a[0] in multiset(b);
      var j :| 0 <= j < |b| && b[j] == a[0];
      var rest := b[..j] + b[j + 1..];
      MultisetRemove(b, j);
      MultisetRemove(a, 0);
      assert a[..0] + a[1..] == a[1..];
      CountPermutation(a[1..], rest, p);
      CountRemove(b, j, p);
    }
  }

  /** Counting within the selected documents counts the same as in the whole table, for a narrower condition. */
  lemma {:induction false} CountSelect<T>(s: seq<T>, keep: T -> bool, p: T -> bool)
    requires forall i :: 0 <= i < |s| && p(s[i]) ==> keep(s[i])
    ensures CountWhere(Select(s, keep), p) == CountWhere(s, p)
  {
    if s != [] {
      var tail := s[1..];
      assert forall i :: 0 <= i < |tail| && p(tail[i]) ==> keep(tail[i]) by {
        forall i | 0 <= i < |tail| && p(tail[i]) ensures keep(tail[i]) {
          assert tail[i] == s[i + 1];
        }
      }
      CountSelect(tail, keep, p);
      var rest := Select(tail, keep);
      if keep(s[0]) {
        assert Select(s, keep) == [s[0]] + rest;
        assert ([s[0]] + rest)[1..] == rest;
      } else {
        assert Select(s, keep) == rest;
      }
    }
  }
}
