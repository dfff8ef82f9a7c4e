/** What several components share: an optional value, the last element of a sequence, machine word sizes. */
module Prelude {
  datatype Option<+T> = None | Some(value: T)

  const I63 := 0x8000_0000_0000_0000
  const U64 := 0x1_0000_0000_0000_0000
  const U256 := 0x1_0000000000000000_0000000000000000_0000000000000000_0000000000000000

  function Last<T>(s: seq<T>): T
    requires s != []
  {
    s[|s| - 1]
  }

  predicate NoDuplicates<T(==)>(s: seq<T>) {
    forall i, j | 0 <= i < j < |s| :: s[i] != s[j]
  }

  // The found elements stand in a sequence at ascending places.
  ghost predicate Placed<T(!new)>(found: seq<T>, s: seq<T>, at: seq<nat>) {
    && |at| == |found|
    && (forall k | 0 <= k < |at| :: at[k] < |s| && s[at[k]] == found[k])
    && (forall j, k | 0 <= j < k < |at| :: at[j] < at[k])
  }

  lemma PlacedOnwards<T(!new)>(found: seq<T>, init: seq<T>, at: seq<nat>, x: T)
    requires Placed(found, init, at)
    ensures Placed(found, init + [x], at) && Placed(found + [x], init + [x], at + [|init|])
  {
  }
}
