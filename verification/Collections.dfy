/** Facts about sequences, sets and maps that several modules need. */
module Collections {
  function Reverse<T>(s: seq<T>): seq<T> {
    seq(|s|, i requires 0 <= i < |s| => s[|s| - 1 - i])
  }

  lemma ReverseGrows<T>(s: seq<T>, x: T)
    ensures Reverse(s + [x]) == [x] + Reverse(s)
  {
  }

  // A part is no larger than the whole, and smaller if it is not all of it.
  lemma PartIsSmaller<T>(part: set<T>, all: set<T>)
    requires part <= all
    ensures |part| <= |all| && (part != all ==> |part| < |all|)
  {
    assert all == part + (all - part);
  }

  lemma OneByOne<K, V>(m: map<K, V>, gone: set<K>, k: K)
    ensures m - gone - {k} == m - (gone + {k})
  {
  }
}
