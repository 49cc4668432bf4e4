/** The success/failure record returned by fallible operations, and an optional value. */
module Results {

  /** An optional value; `None` stands for JavaScript's `undefined`. */
  datatype Option<+T> = None | Some(value: T)

  /**
   * A discriminated union on the `ok` tag: `{ ok: true, value }` or
   * `{ ok: false, error }`. The constructors play the part of the `ok` and
   * `err` helper functions.
   */
  datatype Result<+V, +E> = Ok(value: V) | Err(error: E) {

    /** The record's `ok` tag. */
    predicate IsOk() {
      Ok?
    }
  }

  /** `ok(v)` is tagged ok and carries exactly `v`; `err(e)` is tagged not-ok and carries exactly `e`. */
  lemma ConstructorsTagged<V, E>(v: V, e: E)
    ensures Result<V, E>.Ok(v).IsOk() && Result<V, E>.Ok(v).value == v
    ensures !Result<V, E>.Err(e).IsOk() && Result<V, E>.Err(e).error == e
  {
  }

  /** The two variants are told apart by the `ok` tag alone. */
  lemma TagsDisjoint<V, E>(r: Result<V, E>)
    ensures r.IsOk() <==> !r.Err?
  {
  }
}
