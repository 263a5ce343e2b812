module Options {
  datatype Option<+T> = None | Some(value: T)

  /** Either a set is empty or something can be picked from it. */
  lemma SomeMember<T(!new)>(s: set<T>)
    ensures s == {} || exists x :: x in s
  {
    if !exists x :: x in s {
      assert s == {};
    }
  }
}
