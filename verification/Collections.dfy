/** Small vocabulary shared by the models. */
module Collections {
  datatype Option<+T> = None | Some(value: T)

  /** The concatenation of `parts`. */
  ghost function Flatten<T>(parts: seq<seq<T>>): (s: seq<T>) {
    if parts == [] then [] else parts[0] + Flatten(parts[1..])
  }

  lemma {:induction false} FlattenAppend<T>(parts: seq<seq<T>>, more: seq<seq<T>>)
    ensures Flatten(parts + more) == Flatten(parts) + Flatten(more)
  {
    if parts == [] {
      assert parts + more == more;
    } else {
      FlattenAppend(parts[1..], more);
      assert (parts + more)[1..] == parts[1..] + more;
      assert parts[0] + (Flatten(parts[1..]) + Flatten(more)) == parts[0] + Flatten(parts[1..]) + Flatten(more);
    }
  }
}
