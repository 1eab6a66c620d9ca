/**
 * Values shared by every page of the client: optional values (the source's
 * `T | null | undefined`), the outcome of one awaited backend call, and the
 * JavaScript truthiness rules the pages lean on (`x || y`, `if (!x) return`).
 */
module Common {

  /** A value that may be missing (`null` or `undefined` in the source). */
  datatype Option<T> = None | Some(value: T) {

    /** The value, or `default` when it is missing. */
    function GetOr(default: T): T {
      match this
      case Some(v) => v
      case None => default
    }
  }

  /**
   * What an awaited backend call (`rpc`, `from(...).insert/delete/select`)
   * hands back to the page: rows on success, an `error` field, or an exception
   * thrown out of the `await`. The backend itself is not modelled; each handler
   * takes the reply as a parameter.
   */
  datatype Reply<T> = Ok(data: T) | Err | Threw {

    /** The call did not succeed, whichever way it failed. */
    predicate Failed() { !Ok? }
  }

  /** A toast shown to the user: `toast.success(text)` or `toast.error(text)`. */
  datatype Notice = Success(text: string) | Failure(text: string)

  /** JavaScript truthiness of a `string | null | undefined`: only a non-empty string is truthy. */
  predicate Truthy(s: Option<string>) {
    s.Some? && s.value != ""
  }

  /** `a || b` on optional strings. */
  function Or(a: Option<string>, b: Option<string>): (r: Option<string>)
    ensures Truthy(a) ==> r == a
    ensures !Truthy(a) ==> r == b
  {
    if Truthy(a) then a else b
  }

  /** `(n || 0)` on an optional count: a missing count reads as 0. */
  function CountOrZero(n: Option<int>): int {
    n.GetOr(0)
  }

  /** A row of the `toggle_like` procedure's reply: the post's like count after the toggle. */
  datatype LikeRow = LikeRow(likesCount: int)

  /** The optimistic change of a like count: one less if the post was liked, one more if not. */
  function LikeDelta(wasLiked: bool): (d: int)
    ensures d == 1 || d == -1
    ensures d < 0 <==> wasLiked
  {
    if wasLiked then -1 else 1
  }

  /** `(count || 0) + d`: a missing count is taken as 0 and the result is always present. */
  function Shifted(count: Option<int>, d: int): (r: Option<int>)
    ensures r.Some? && r.value == CountOrZero(count) + d
  {
    Some(CountOrZero(count) + d)
  }

  /** Shifting a count forward and back gives the count it read as, now always present. */
  lemma ShiftBack(count: Option<int>, d: int)
    ensures Shifted(Shifted(count, d), -d) == Some(CountOrZero(count))
  {
  }
}
