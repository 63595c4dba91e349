/**
 * HTTP status codes used by the handlers, and the JavaScript string semantics the handlers apply
 * to request fields: truthiness and `length`.
 */
module Http {
  import opened Wrappers

  const Ok: int := 200
  const Created: int := 201
  const BadRequest: int := 400
  const Unauthorized: int := 401
  const Forbidden: int := 403
  const NotFound: int := 404
  const ServerError: int := 500

  /** A handler's outcome that carries a value on success and a status code otherwise. */
  datatype Result<+T> = Success(value: T) | Failure(status: int)

  /**
   * A string field passes the source's `!field` test exactly when it is supplied and non-empty
   * (undefined, null and "" are the falsy strings).
   */
  predicate Present(field: Option<string>) {
    field.Some? && field.value != ""
  }

  /**
   * `s.length` in JavaScript: the number of UTF-16 code units, so a character outside the Basic
   * Multilingual Plane (above U+FFFF, such as most emoji) counts twice.
   */
  function Utf16Length(s: string): (n: nat)
    ensures |s| <= n <= 2 * |s|
  {
    if s == [] then 0
    else (if s[0] as int > 0xFFFF then 2 else 1) + Utf16Length(s[1..])
  }

  /** The JavaScript length agrees with the character count exactly when no character lies above U+FFFF. */
  lemma {:induction false} Utf16LengthIsCount(s: string)
    ensures Utf16Length(s) == |s| <==> forall i :: 0 <= i < |s| ==> s[i] as int <= 0xFFFF
  {
    if s != [] {
      Utf16LengthIsCount(s[1..]);
      assert forall i :: 1 <= i < |s| ==> s[i] == s[1..][i - 1];
      if forall i :: 0 <= i < |s| ==> s[i] as int <= 0xFFFF {
        assert forall i :: 0 <= i < |s[1..]| ==> s[1..][i] as int <= 0xFFFF by {
          forall i | 0 <= i < |s[1..]| ensures s[1..][i] as int <= 0xFFFF {
            assert s[1..][i] == s[i + 1];
          }
        }
      }
    }
  }
}
