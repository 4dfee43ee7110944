/** Vocabulary shared by the modules. */
module Wrappers {
  datatype Option<+T> = None | Some(value: T)

  /** The first n elements, or all of them. */
  function First<T>(n: nat, s: seq<T>): seq<T> {
    if n < |s| then s[..n] else s
  }

  function Flatten<T>(parts: seq<seq<T>>): seq<T> {
    if parts == [] then [] else parts[0] + Flatten(parts[1..])
  }

  lemma {:induction false} FlattenAdd<T>(parts: seq<seq<T>>, p: seq<T>)
    ensures Flatten(parts + [p]) == Flatten(parts) + p
  {
    if parts == [] {
      assert [p][1..] == [];
    } else {
      assert (parts + [p])[1..] == parts[1..] + [p];
      FlattenAdd(parts[1..], p);
    }
  }

  lemma FlattenTo<T>(parts: seq<seq<T>>, n: nat)
    requires n < |parts|
    ensures Flatten(parts[..n + 1]) == Flatten(parts[..n]) + parts[n]
  {
    assert parts[..n + 1] == parts[..n] + [parts[n]];
    FlattenAdd(parts[..n], parts[n]);
  }
}
