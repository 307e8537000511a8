/** Go strings and byte slices: sequences of 8-bit values, compared byte by byte. */
module Bytes {

  type byte = x: int | 0 <= x < 256

  type Text = seq<byte>

  /** `s` ends `t`. */
  predicate Suffix<T(==)>(s: seq<T>, t: seq<T>) {
    |s| <= |t| && forall i {:trigger s[i]} :: 0 <= i < |s| ==> t[|t| - |s| + i] == s[i]
  }

  predicate ProperSuffix<T(==)>(s: seq<T>, t: seq<T>) {
    |s| < |t| && Suffix(s, t)
  }

  lemma SuffixExtend<T>(s: seq<T>, t: seq<T>, b: T)
    ensures Suffix(s + [b], t + [b]) <==> Suffix(s, t)
  {
    if Suffix(s + [b], t + [b]) {
      forall i | 0 <= i < |s| ensures t[|t| - |s| + i] == s[i] {
        assert s[i] == (s + [b])[i];
      }
    }
  }

  /** Of two suffixes of one text, the shorter is a suffix of the longer. */
  lemma SuffixOfSuffix<T>(s: seq<T>, u: seq<T>, t: seq<T>)
    requires Suffix(s, t) && Suffix(u, t) && |s| <= |u|
    ensures Suffix(s, u)
  {
    forall i | 0 <= i < |s| ensures u[|u| - |s| + i] == s[i] {
      assert u[|u| - |s| + i] == t[|t| - |u| + (|u| - |s| + i)];
    }
  }

  lemma SuffixTransitive<T>(s: seq<T>, u: seq<T>, t: seq<T>)
    requires Suffix(s, u) && Suffix(u, t)
    ensures Suffix(s, t)
  {
    forall i | 0 <= i < |s| ensures t[|t| - |s| + i] == s[i] {
      assert u[|u| - |s| + i] == s[i];
    }
  }
}
