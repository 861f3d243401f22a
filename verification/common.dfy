/** Failure-compatible wrappers and general sequence facts shared by every
    module of the model. */
module Common {

  /** A reference that may be null on the C# side. */
  datatype Option<+T> = None | Some(value: T)

  /** A computation that either yields a value or raises an error. */
  datatype Result<+T, +E> = Success(value: T) | Failure(error: E)

  /** No value occurs twice in `s`. */
  predicate Distinct<T(==)>(s: seq<T>)
  {
    forall i, j :: 0 <= i < j < |s| ==> s[i] != s[j]
  }

  /** Appending two pieces one after the other appends their concatenation. */
  lemma AppendTwice<T>(base: seq<T>, first: seq<T>, second: seq<T>, both: seq<T>)
    requires both == first + second
    ensures (base + first) + second == base + both
  {
  }

  /** The tail of a sequence past `n` splits at the end of a prefix of it. */
  lemma SliceSplit<T>(whole: seq<T>, prefix: seq<T>, n: nat)
    requires n <= |prefix| <= |whole| && whole[..|prefix|] == prefix
    ensures whole[n..] == prefix[n..] + whole[|prefix|..]
  {
    assert whole == prefix + whole[|prefix|..];
  }
}
