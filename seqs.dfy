/** Sequence helpers shared by the scraper model: the order-preserving
    de-duplication that Python's `dict.fromkeys` gives, and first-index search. */
module Seqs {

  /** No element occurs twice. */
  predicate NoDup<T(==)>(s: seq<T>) {
    forall i, j :: 0 <= i < j < |s| ==> s[i] != s[j]
  }

  /** The index of the first occurrence of `x` in `s`. */
  function IndexOf<T(==)>(s: seq<T>, x: T): (r: nat)
    requires x in s
    ensures r < |s| && s[r] == x
    ensures forall j :: 0 <= j < r ==> s[j] != x
  {
    if s[0] == x then 0 else 1 + IndexOf(s[1..], x)
  }

  lemma {:induction false} IndexOfAppend<T>(s: seq<T>, x: T, y: T)
    requires y in s
    ensures IndexOf(s + [x], y) == IndexOf(s, y)
  {
    var k := IndexOf(s, y);
    assert (s + [x])[k] == y;
    forall j | 0 <= j < k ensures (s + [x])[j] != y {
      assert (s + [x])[j] == s[j];
    }
    IndexOfUnique(s + [x], y, k);
  }

  lemma IndexOfUnique<T>(s: seq<T>, y: T, k: nat)
    requires k < |s| && s[k] == y
    requires forall j :: 0 <= j < k ==> s[j] != y
    ensures IndexOf(s, y) == k
  {
  }

  /** Keeps the first occurrence of every element, in order of first appearance:
      `list(dict.fromkeys(s))`. Defined by appending one element at a time, as the
      dictionary is filled. */
  function Dedup<T(==,!new)>(s: seq<T>): (r: seq<T>)
    ensures forall x :: x in r <==> x in s
    ensures NoDup(r)
    ensures |r| <= |s|
  {
    if s == [] then []
    else
      var d := Dedup(s[..|s| - 1]);
      if s[|s| - 1] in d then d else d + [s[|s| - 1]]
  }

  /** The kept elements are in the order of their first occurrences in `s`. */
  lemma {:induction false} DedupOrder<T(!new)>(s: seq<T>)
    ensures forall i, j :: 0 <= i < j < |Dedup(s)| ==> IndexOf(s, Dedup(s)[i]) < IndexOf(s, Dedup(s)[j])
  {
    if s != [] {
      var init := s[..|s| - 1];
      var x := s[|s| - 1];
      assert s == init + [x];
      DedupOrder(init);
      var d := Dedup(init);
      forall y | y in init ensures IndexOf(s, y) == IndexOf(init, y) {
        IndexOfAppend(init, x, y);
      }
      var r := Dedup(s);
      assert r == if x in d then d else d + [x];
      if x !in d {
        assert IndexOf(s, x) == |init| by {
          IndexOfUnique(s, x, |init|);
        }
      }
      forall i, j | 0 <= i < j < |r| ensures IndexOf(s, r[i]) < IndexOf(s, r[j]) {
        assert r[i] == d[i] && d[i] in init;
        assert IndexOf(s, d[i]) == IndexOf(init, d[i]) < |init|;
        if j < |d| {
          assert r[j] == d[j] && d[j] in init;
          assert IndexOf(s, d[j]) == IndexOf(init, d[j]);
          assert IndexOf(init, d[i]) < IndexOf(init, d[j]);
        } else {
          assert x !in d && j == |d|;
          assert r[j] == x && IndexOf(s, x) == |init|;
        }
      }
    }
  }

  /** A prefix one element longer is the shorter prefix and that element. */
  lemma PrefixSnoc<T>(s: seq<T>, i: nat)
    requires i < |s|
    ensures s[..i + 1] == s[..i] + [s[i]]
  {
  }

  /** Dedup of an extended sequence: the new element is added at the end
      exactly when it was not seen before. */
  lemma DedupSnoc<T(!new)>(s: seq<T>, x: T)
    ensures Dedup(s + [x]) == if x in s then Dedup(s) else Dedup(s) + [x]
  {
    assert (s + [x])[..|s + [x]| - 1] == s;
  }
}
