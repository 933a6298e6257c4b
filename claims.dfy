/**
 * Reading the caller's user id from its NameIdentifier claim, as the hub and the
 * controllers do (`int.TryParse(claim, out id) ? id : 0`), and writing it, as the
 * token issuer does (`user.Id.ToString()`).
 *
 * int.TryParse uses the integer number style: optional leading and trailing white
 * space (U+0009..U+000D and U+0020), an optional leading '+' or '-', one or more
 * ASCII digits, and a value that fits in a 32-bit signed integer.
 */
module Claims {
  import opened Wrappers

  const Int32Min: int := -0x8000_0000
  const Int32Max: int := 0x7FFF_FFFF

  predicate IsParseWhite(c: char) {
    c == ' ' || ('\t' <= c <= '\r')
  }

  predicate IsDigit(c: char) {
    '0' <= c <= '9'
  }

  predicate AllDigits(s: string) {
    forall i | 0 <= i < |s| :: IsDigit(s[i])
  }

  /** The value of a run of decimal digits, most significant first. */
  function DigitsValue(s: string): nat
    requires AllDigits(s)
  {
    if s == [] then 0
    else DigitsValue(s[..|s| - 1]) * 10 + (s[|s| - 1] as int - '0' as int)
  }

  /** `s` without its leading parse white space. */
  function TrimStart(s: string): (r: string)
    ensures |r| <= |s| && r == s[|s| - |r|..]
    ensures r != [] ==> !IsParseWhite(r[0])
    ensures forall i | 0 <= i < |s| - |r| :: IsParseWhite(s[i])
  {
    if s != [] && IsParseWhite(s[0]) then TrimStart(s[1..]) else s
  }

  /** `s` without its trailing parse white space. */
  function TrimEnd(s: string): (r: string)
    ensures |r| <= |s| && r == s[..|r|]
    ensures r != [] ==> !IsParseWhite(r[|r| - 1])
    ensures forall i | |r| <= i < |s| :: IsParseWhite(s[i])
  {
    if s != [] && IsParseWhite(s[|s| - 1]) then TrimEnd(s[..|s| - 1]) else s
  }

  /** The value of an optional sign followed by digits, or None. */
  function SignedValue(t: string): Option<int> {
    if t != [] && (t[0] == '-' || t[0] == '+') then
      var digits := t[1..];
      if digits != [] && AllDigits(digits) then
        var magnitude: int := DigitsValue(digits);
        Some(if t[0] == '-' then -magnitude else magnitude)
      else None
    else if t != [] && AllDigits(t) then Some(DigitsValue(t))
    else None
  }

  /** int.TryParse: the parsed value when `s` is a well-formed 32-bit integer. */
  function TryParseInt32(s: string): (r: Option<int>)
    ensures r.Some? ==> Int32Min <= r.value <= Int32Max
    ensures (forall i | 0 <= i < |s| :: IsParseWhite(s[i])) ==> r.None?
  {
    WhiteTrimsAway(s);
    var v := SignedValue(TrimEnd(TrimStart(s)));
    if v.Some? && Int32Min <= v.value <= Int32Max then v else None
  }

  /**
   * GetUserId: the claim's value when present and parsable, 0 otherwise.
   * A non-zero id always comes from a claim that parsed to it.
   */
  function GetUserId(claim: Option<string>): (userId: int)
    ensures userId != 0 ==> claim.Some? && TryParseInt32(claim.value) == Some(userId)
    ensures claim.None? ==> userId == 0
    ensures claim.Some? && TryParseInt32(claim.value).None? ==> userId == 0
    ensures claim.Some? && TryParseInt32(claim.value).Some? ==> userId == TryParseInt32(claim.value).value
  {
    match claim
    case None => 0
    case Some(text) => TryParseInt32(text).GetOr(0)
  }

  /** A string of parse white space alone trims to nothing. */
  lemma {:induction false} WhiteTrimsAway(s: string)
    ensures (forall i | 0 <= i < |s| :: IsParseWhite(s[i])) ==> TrimStart(s) == []
  {
    if s != [] {
      WhiteTrimsAway(s[1..]);
    }
  }

  /** Decimal rendering of a natural number, most significant digit first. */
  function NatToString(n: nat): string {
    if n < 10 then ['0' + n as char]
    else NatToString(n / 10) + ['0' + (n % 10) as char]
  }

  /** Int32.ToString() in the invariant culture. */
  function IntToString(n: int): string {
    if n < 0 then "-" + NatToString(-n) else NatToString(n)
  }

  lemma {:induction false} NatToStringDigits(n: nat)
    ensures NatToString(n) != [] && AllDigits(NatToString(n))
    ensures DigitsValue(NatToString(n)) == n
  {
    if n >= 10 {
      NatToStringDigits(n / 10);
      var s := NatToString(n);
      assert s[..|s| - 1] == NatToString(n / 10);
    }
  }

  /**
   * The claim the token issuer writes for a user id reads back as that id: the
   * hub and the controllers identify the user the token was issued for.
   */
  lemma UserIdClaimRoundTrip(id: int)
    requires Int32Min <= id <= Int32Max
    ensures TryParseInt32(IntToString(id)) == Some(id)
    ensures id != 0 ==> GetUserId(Some(IntToString(id))) == id
  {
    var s := IntToString(id);
    TryParsePadded([], id, []);
    assert [] + s + [] == s;
  }

  /** The rendering of an integer has no white space at either end and reads back, sign included, as that integer. */
  lemma IntToStringShape(id: int)
    ensures var s := IntToString(id);
      && s != [] && !IsParseWhite(s[0]) && !IsParseWhite(s[|s| - 1])
      && SignedValue(s) == Some(id)
  {
    var m: nat := if id < 0 then -id else id;
    NatToStringDigits(m);
    var digits := NatToString(m);
    assert IsDigit(digits[0]) && IsDigit(digits[|digits| - 1]);
    if id < 0 {
      var s := "-" + digits;
      assert s == IntToString(id);
      assert s[1..] == digits;
    }
  }

  /** Trimming leading white space off white space followed by a non-white start leaves that remainder. */
  lemma {:induction false} TrimStartPadding(pre: string, t: string)
    requires forall i | 0 <= i < |pre| :: IsParseWhite(pre[i])
    requires t != [] && !IsParseWhite(t[0])
    ensures TrimStart(pre + t) == t
  {
    if pre != [] {
      assert (pre + t)[1..] == pre[1..] + t;
      TrimStartPadding(pre[1..], t);
    }
  }

  /** Trimming trailing white space off a non-white end followed by white space leaves the text before it. */
  lemma {:induction false} TrimEndPadding(t: string, post: string)
    requires forall i | 0 <= i < |post| :: IsParseWhite(post[i])
    requires t != [] && !IsParseWhite(t[|t| - 1])
    ensures TrimEnd(t + post) == t
  {
    if post != [] {
      assert (t + post)[..|t + post| - 1] == t + post[..|post| - 1];
      TrimEndPadding(t, post[..|post| - 1]);
    } else {
      assert t + post == t;
    }
  }

  /** A rendered Int32 surrounded by white space still parses, as int.TryParse allows leading and trailing white space. */
  lemma TryParsePadded(pre: string, id: int, post: string)
    requires Int32Min <= id <= Int32Max
    requires forall i | 0 <= i < |pre| :: IsParseWhite(pre[i])
    requires forall i | 0 <= i < |post| :: IsParseWhite(post[i])
    ensures TryParseInt32(pre + IntToString(id) + post) == Some(id)
  {
    var s := IntToString(id);
    IntToStringShape(id);
    var t := s + post;
    assert t[0] == s[0];
    assert pre + s + post == pre + t;
    TrimStartPadding(pre, t);
    TrimEndPadding(s, post);
    assert TrimEnd(TrimStart(pre + s + post)) == s;
  }
}
