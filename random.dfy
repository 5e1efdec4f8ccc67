/** Python's `random.choice`, modelled as nondeterministic choice. */
module Random {
  import opened Wrappers

  /**
   * Some element of `s`; `None` where `random.choice` raises `IndexError`
   * on an empty sequence. Nothing is said about which element is chosen.
   */
  method Choice<T(==)>(s: seq<T>) returns (r: Option<T>)
    ensures r.None? <==> s == []
    ensures r.Some? ==> r.value in s
  {
    if s == [] {
      return None;
    }
    var i :| 0 <= i < |s|;
    r := Some(s[i]);
  }
}
