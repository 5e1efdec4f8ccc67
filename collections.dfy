/** Facts about sequences used as the key order of a Python `dict`. */
module Collections {

  /** No element of `s` occurs twice. */
  ghost predicate Distinct<T>(s: seq<T>)
  {
    forall i, j :: 0 <= i < j < |s| ==> s[i] != s[j]
  }

  /**
   * The keys, in iteration order, of a dict built by inserting the
   * elements of `s` one after another: each element at its first
   * occurrence, later repeats dropped.
   */
  function Dedup(s: seq<int>): (r: seq<int>)
    ensures forall x :: x in r <==> x in s
    ensures Distinct(r)
    ensures |r| <= |s|
  {
    if s == [] then []
    else
      var d := Dedup(s[..|s| - 1]);
      var last := s[|s| - 1];
      assert forall x :: x in s <==> x in s[..|s| - 1] || x == last;
      if last in d then d else d + [last]
  }

  /** Inserting a prefix of `s` yields a prefix of the key order of all of `s`. */
  lemma {:induction false} DedupPrefix(s: seq<int>, n: nat)
    requires n <= |s|
    ensures Dedup(s[..n]) <= Dedup(s)
  {
    if n < |s| {
      var init := s[..|s| - 1];
      assert init[..n] == s[..n];
      DedupPrefix(init, n);
    } else {
      assert s[..n] == s;
    }
  }

  /**
   * A first occurrence `s[i]` becomes a new key right after the keys of
   * `s[..i]`.
   */
  lemma DedupFirstOccurrence(s: seq<int>, i: nat)
    requires i < |s| && s[i] !in s[..i]
    ensures Dedup(s[..i + 1]) == Dedup(s[..i]) + [s[i]]
  {
    assert s[..i + 1][..i] == s[..i];
  }
}
