/** Small concepts that several modules share. */
module Common {

  datatype Option<+T> = None | Some(value: T)

  function Min(a: nat, b: nat): nat { if a < b then a else b }

  predicate Increasing(s: seq<nat>) { forall j: nat, k: nat | j < k < |s| :: s[j] < s[k] }
}
