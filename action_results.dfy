/**
 * What the HTTP controllers hand back, and the string test their guard
 * clauses use. A controller action either answers straight from its guards
 * or calls a service with the arguments it has checked; `Decision` records
 * which, so that "the service is not called" is a statement about a value.
 */
module ActionResults {
  import opened Wrappers
  import opened Claims

  /** The result kinds the controllers produce; the payload is the JSON body. */
  datatype ActionResult<T> =
    | Ok(value: T)
    | BadRequest(message: string)
    | Unauthorized(reason: Option<string>)
    | NotFound(message: string)
    | Forbid

  /** Either an answer given by a guard clause, or the service call the action goes on to make. */
  datatype Decision<A, T> = Respond(result: ActionResult<T>) | Call(args: A)

  /**
   * char.IsWhiteSpace: the Unicode separators, plus U+0009..U+000D and U+0085.
   * On ASCII it is exactly the white space int.TryParse skips around a number.
   */
  function IsWhiteSpace(c: char): (r: bool)
    ensures IsParseWhite(c) ==> r
    ensures c < '\U{0080}' ==> (r <==> IsParseWhite(c))
  {
    || c == ' ' || ('\t' <= c <= '\r') || c == '\U{0085}' || c == '\U{00A0}' || c == '\U{1680}'
    || ('\U{2000}' <= c <= '\U{200A}') || c == '\U{2028}' || c == '\U{2029}'
    || c == '\U{202F}' || c == '\U{205F}' || c == '\U{3000}'
  }

  /** Whether every character of `s` is white space, checked first to last as string.IsNullOrWhiteSpace does. */
  function AllWhiteSpace(s: string): (r: bool)
    ensures r <==> forall i | 0 <= i < |s| :: IsWhiteSpace(s[i])
  {
    s == [] || (IsWhiteSpace(s[0]) && AllWhiteSpace(s[1..]))
  }

  /** string.IsNullOrWhiteSpace: null, empty, or nothing but white space. */
  function IsNullOrWhiteSpace(s: Option<string>): (r: bool)
    ensures r <==> s.None? || forall i | 0 <= i < |s.value| :: IsWhiteSpace(s.value[i])
    ensures s == Some("") ==> r
  {
    s.None? || AllWhiteSpace(s.value)
  }
}
