/**
 * Shared vocabulary of the model: optional values, instants, byte strings,
 * HTTP statuses, the authenticated principal, and the few java.lang.String
 * operations the core relies on.
 */
module Common {

  /** A value the source may hold as `null`. */
  datatype Option<T> = None | Some(value: T)
  {
    function GetOr(default: T): T
    {
      match this
      case Some(v) => v
      case None => default
    }
  }

  /** A java.time.Instant, as a count of nanoseconds on the time line. */
  type Instant = int

  const NanosPerSecond: int := 1_000_000_000

  /** Instant.plusSeconds. */
  function PlusSeconds(t: Instant, seconds: int): Instant
  {
    t + seconds * NanosPerSecond
  }

  /** Instant.isAfter: strictly later on the time line. */
  predicate IsAfter(a: Instant, b: Instant)
  {
    a > b
  }

  type Bytes = seq<bv8>

  /** The HTTP statuses the core produces. */
  datatype Status =
    | Ok | Created | NoContent
    | BadRequest | Unauthorized | Forbidden | NotFound | MethodNotAllowed | UnsupportedMediaType
    | InternalServerError | ServiceUnavailable
  {
    function Code(): int
    {
      match this
      case Ok => 200
      case Created => 201
      case NoContent => 204
      case BadRequest => 400
      case Unauthorized => 401
      case Forbidden => 403
      case NotFound => 404
      case MethodNotAllowed => 405
      case UnsupportedMediaType => 415
      case InternalServerError => 500
      case ServiceUnavailable => 503
    }
  }

  /** Spring Security's Authentication: the principal's name and whether it is authenticated. */
  datatype Auth = Auth(name: string, authenticated: bool)

  /** The name Spring Security gives the anonymous principal on permitted routes. */
  const AnonymousUserName: string := "anonymousUser"

  // ---------------------------------------------------------------------------
  // String operations
  // ---------------------------------------------------------------------------

  /** String.startsWith. */
  predicate StartsWith(s: string, prefix: string)
  {
    |prefix| <= |s| && s[..|prefix|] == prefix
  }

  /** A concatenation starts with its first part. */
  lemma ConcatStartsWith(a: string, b: string)
    ensures StartsWith(a + b, a)
  {
    assert (a + b)[..|a|] == a;
  }

  /** Strings with a common prefix are equal exactly when their remainders are. */
  lemma PrefixCancels(pre: string, a: string, b: string)
    ensures pre + a == pre + b <==> a == b
  {
    assert a == (pre + a)[|pre|..];
    assert b == (pre + b)[|pre|..];
  }

  /** String.contains on a (possibly longer) substring. */
  predicate ContainsSubstring(s: string, sub: string)
  {
    exists i :: 0 <= i <= |s| - |sub| && OccursAt(s, sub, i)
  }

  /** sub occurs in s starting at index i. */
  predicate OccursAt(s: string, sub: string, i: int)
    requires 0 <= i <= |s| - |sub|
  {
    s[i..i + |sub|] == sub
  }

  /** String.lastIndexOf for one character: the index of its last occurrence, or -1. */
  function LastIndexOf(s: string, c: char): (i: int)
    ensures -1 <= i < |s|
    ensures i == -1 <==> c !in s
    ensures 0 <= i ==> s[i] == c && c !in s[i + 1..]
  {
    LastIndexBefore(s, c, |s|)
  }

  /** The backward scan of lastIndexOf over the first n characters. */
  function LastIndexBefore(s: string, c: char, n: nat): (i: int)
    requires n <= |s|
    ensures -1 <= i < n
    ensures i == -1 <==> forall k :: 0 <= k < n ==> s[k] != c
    ensures 0 <= i ==> s[i] == c && forall k :: i < k < n ==> s[k] != c
  {
    if n == 0 then -1
    else if s[n - 1] == c then n - 1
    else LastIndexBefore(s, c, n - 1)
  }

  /** Character.toLowerCase, on the ASCII letters. */
  function ToLowerChar(c: char): char
  {
    if 'A' <= c <= 'Z' then (c as int + 32) as char else c
  }

  /** String.toLowerCase, character by character. */
  function ToLower(s: string): (r: string)
    ensures |r| == |s|
    ensures forall i :: 0 <= i < |s| ==> r[i] == ToLowerChar(s[i])
  {
    seq(|s|, i requires 0 <= i < |s| => ToLowerChar(s[i]))
  }

  /**
   * What lower-casing does: no ASCII upper-case letter is left, and the only
   * characters that change are upper-case letters, each to its lower-case partner.
   */
  lemma ToLowerFoldsCase(s: string)
    ensures forall i :: 0 <= i < |s| ==> !('A' <= ToLower(s)[i] <= 'Z')
    ensures forall i :: 0 <= i < |s| && ToLower(s)[i] != s[i] ==> 'A' <= s[i] <= 'Z' && ToLower(s)[i] as int == s[i] as int + 32
  {
  }

  /** Lower-casing is idempotent: text already lower-cased is left as it is. */
  lemma ToLowerIdempotent(s: string)
    ensures ToLower(ToLower(s)) == ToLower(s)
  {
    var t := ToLower(s);
    assert forall i :: 0 <= i < |t| ==> ToLower(t)[i] == t[i];
  }

  /** String.equalsIgnoreCase, on the ASCII letters. */
  predicate EqualsIgnoreCase(a: string, b: string)
  {
    ToLower(a) == ToLower(b)
  }

  /** String.isBlank / @NotBlank: nothing but characters at or below U+0020. */
  predicate IsBlank(s: string)
  {
    forall i :: 0 <= i < |s| ==> s[i] <= ' '
  }

  /** The decimal digit for d. */
  function DigitChar(d: nat): (c: char)
    requires d < 10
    ensures '0' <= c <= '9'
  {
    (48 + d) as char
  }

  /** Long.toString / "%d" for a non-negative id. */
  function NatToString(n: nat): (s: string)
    ensures |s| > 0
    ensures forall i :: 0 <= i < |s| ==> '0' <= s[i] <= '9'
  {
    if n < 10 then [DigitChar(n)] else NatToString(n / 10) + [DigitChar(n % 10)]
  }

  /** Distinct ids have distinct decimal renderings. */
  lemma {:induction false} NatToStringInjective(m: nat, n: nat)
    requires NatToString(m) == NatToString(n)
    ensures m == n
  {
    var sm, sn := NatToString(m), NatToString(n);
    if m < 10 && n < 10 {
      assert sm[0] == DigitChar(m) && sn[0] == DigitChar(n);
    } else if 10 <= m && 10 <= n {
      assert sm[..|sm| - 1] == NatToString(m / 10);
      assert sn[..|sn| - 1] == NatToString(n / 10);
      NatToStringInjective(m / 10, n / 10);
      assert DigitChar(m % 10) == sm[|sm| - 1] == sn[|sn| - 1] == DigitChar(n % 10);
    }
  }
}
