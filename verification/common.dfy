/**
 * Shared vocabulary of the model: artifact identifiers, an optional value
 * (for the places where the PHP code uses null) and two small helpers on
 * sequences.
 */
module Common {

  /** The uuid string that identifies a code artifact. Two artifacts are the
      same object exactly when their identifiers are equal. */
  type Id = string

  /** A value that may be absent; `None` stands for PHP's null. */
  datatype Option<+T> = None | Some(value: T)

  /** The elements of a sequence, as a set. */
  function Elems<T>(s: seq<T>): (r: set<T>)
  {
    set x | x in s
  }

  /** True when no element of `s` occurs twice. */
  predicate NoDup<T(==)>(s: seq<T>)
  {
    forall i, j | 0 <= i < j < |s| :: s[i] != s[j]
  }

  /** A sequence without duplicates has as many elements as its set. */
  lemma {:induction false} NoDupCard<T>(s: seq<T>)
    requires NoDup(s)
    ensures |Elems(s)| == |s|
  {
    if s != [] {
      var t := s[..|s| - 1];
      var x := s[|s| - 1];
      assert NoDup(t);
      NoDupCard(t);
      assert s == t + [x];
      assert Elems(s) == Elems(t) + {x};
      assert x !in Elems(t);
    }
  }
}
