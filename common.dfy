/** Small shared vocabulary: optional values, the client's error type and the
    string tests (`startsWith`, `includes`) the client relies on. */
module Common {

  datatype Option<T> = None | Some(value: T)

  /** A thrown `JandIpcError`, identified by its message. */
  datatype IpcError = JandIpcError(message: string)

  /** The outcome of a call that may throw a `JandIpcError`. */
  datatype Result<T> = Ok(value: T) | Err(error: IpcError)

  /** `s.startsWith(prefix)` */
  predicate StartsWith(s: string, prefix: string)
  {
    |prefix| <= |s| && s[..|prefix|] == prefix
  }

  /** `lit` occurs in `s` at position `i`. */
  predicate OccursAt(s: string, lit: string, i: int)
  {
    0 <= i && i + |lit| <= |s| && s[i..i + |lit|] == lit
  }

  /** `s.includes(lit)` */
  predicate Includes(s: string, lit: string)
  {
    exists i | 0 <= i <= |s| :: OccursAt(s, lit, i)
  }

  lemma StartsWithIncludes(s: string, lit: string)
    requires StartsWith(s, lit)
    ensures Includes(s, lit)
  {
    assert OccursAt(s, lit, 0);
  }
}
