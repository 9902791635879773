/** Failure-compatible results and the facts about sequences that several components share. */
module Common {
  datatype Option<+T> = None | Some(value: T)

  /** A Go `(value, error)` pair of which exactly one half is meaningful. */
  datatype Result<+T, +E> = Ok(value: T) | Err(error: E) {
    predicate IsFailure() {
      Err?
    }

    function PropagateFailure<U>(): Result<U, E>
      requires Err?
    {
      Err(error)
    }

    function Extract(): T
      requires Ok?
    {
      value
    }
  }

  /** The members of a sequence, the way Go's `toSet` helpers build a lookup set. */
  function ToSet<T(==,!new)>(xs: seq<T>): (r: set<T>)
    ensures forall x :: x in r <==> x in xs
  {
    set x | x in xs
  }

  lemma InitAndLast<T>(xs: seq<T>)
    requires xs != []
    ensures xs == xs[..|xs| - 1] + [xs[|xs| - 1]]
  {
  }

  lemma PrefixMembers<T>(xs: seq<T>, ys: seq<T>)
    requires xs <= ys
    ensures forall x :: x in xs ==> x in ys
  {
    assert forall i :: 0 <= i < |xs| ==> xs[i] == ys[i];
  }

  ghost predicate Distinct<T(!new)>(xs: seq<T>) {
    forall i, j :: 0 <= i < j < |xs| ==> xs[i] != xs[j]
  }
}
