/** What several parts of the model share. */
module Common {
  datatype Option<+T> = None | Some(value: T)

  /** The last n elements, or all when there are fewer. */
  function Last<T>(s: seq<T>, n: nat): seq<T> { if |s| <= n then s else s[|s| - n..] }

  /** What is left out comes before, and nothing is left out when it fits. */
  lemma LastIsEnd<T>(s: seq<T>, n: nat)
    ensures |Last(s, n)| == (if |s| <= n then |s| else n) && s == s[..|s| - |Last(s, n)|] + Last(s, n)
  {
  }
}
