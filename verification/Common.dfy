/** Vocabulary shared by every module. */
module Common {

  datatype Option<+T> = None | Some(value: T)

  datatype Error =
    | NotFound
    | Unavailable
    | InvalidCredentials
    | InvalidRefreshToken
    | Unauthenticated
    | PermissionDenied
    | ConstraintViolation

  datatype Result<+T> = Ok(value: T) | Err(error: Error)

  /** How one access to a store or to the cache fares.
      `Lost`: the access never happened and the caller sees an error.
      `Late`: the access took effect, but the caller still sees an error. */
  datatype Fault = Fine | Lost | Late

  /** An injective map into a finite set has no more keys than the set has elements. */
  lemma {:induction false} InjectionBound<K, V>(f: map<K, V>, into: set<V>)
    requires forall k :: k in f ==> f[k] in into
    requires forall j, k :: j in f && k in f && f[j] == f[k] ==> j == k
    ensures |f.Keys| <= |into|
    decreases |f.Keys|
  {
    if f.Keys != {} {
      var k :| k in f.Keys;
      var rest := f - {k};
      assert rest.Keys == f.Keys - {k};
      InjectionBound(rest, into - {f[k]});
    }
  }
}
