/** Small shared vocabulary: optional values, results, and text cut at its last separator. */
module Basics {

  datatype Option<+T> = None | Some(value: T)

  datatype Result<+T, +E> = Ok(value: T) | Err(error: E)

  /** The keys of `m` that carry the tag `k`. */
  ghost function Tagged<X, K>(m: map<X, K>, k: K): set<X> {
    set x | x in m && m[x] == k
  }

  /** The part of `s` after the last occurrence of `c`; all of `s` when there is none. */
  function AfterLast(s: string, c: char): (r: string)
    ensures c !in r
    ensures |r| <= |s| && r == s[|s| - |r|..]
    ensures c in s ==> |r| < |s| && s[|s| - |r| - 1] == c
  {
    if s == [] || s[|s| - 1] == c then []
    else AfterLast(s[..|s| - 1], c) + [s[|s| - 1]]
  }

  /** Cutting at the last separator recovers a tail that does not contain the separator. */
  lemma {:induction false} AfterLastOfAppend(head: string, c: char, tail: string)
    requires c !in tail
    ensures AfterLast(head + [c] + tail, c) == tail
  {
    var s := head + [c] + tail;
    if tail == [] {
      assert s[|s| - 1] == c;
    } else {
      var front := tail[..|tail| - 1];
      assert s[..|s| - 1] == head + [c] + front;
      assert s[|s| - 1] == tail[|tail| - 1] && s[|s| - 1] != c;
      AfterLastOfAppend(head, c, front);
      assert tail == front + [tail[|tail| - 1]];
    }
  }
}
