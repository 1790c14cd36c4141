/** authMiddleware (api/middlewares.go): the Authorization header must be
    "<type> <token>" with the type equal to "bearer" up to case, and the
    token must verify; token verification is a function parameter. */
module Middleware {
  import opened Wrappers
  import opened DbErrors
  import TokenApi
  import Http

  const AuthorizationHeaderKey: string := "authorization"
  const AuthorizationTypeBearer: string := "bearer"
  const AuthorizationPayloadKey: string := "authPayload"

  /** How many times `c` occurs in `s`. */
  function Occurrences(s: string, c: char): (n: nat)
    ensures n <= |s|
    ensures n == 0 <==> c !in s
  {
    if |s| == 0 then 0 else (if s[0] == c then 1 else 0) + Occurrences(s[1..], c)
  }

  /** The fields joined back together, `sep` between neighbours. */
  function Join(fields: seq<string>, sep: char): string
    requires |fields| >= 1
  {
    if |fields| == 1 then fields[0] else fields[0] + [sep] + Join(fields[1..], sep)
  }

  /** strings.Split(s, sep) for a one-character separator: one more field
      than there are separators, none of the fields holding one, and the
      fields joined by `sep` give `s` back. */
  function Split(s: string, sep: char): (fields: seq<string>)
    ensures |fields| == Occurrences(s, sep) + 1
    ensures forall i | 0 <= i < |fields| :: sep !in fields[i]
    ensures Join(fields, sep) == s
  {
    if |s| == 0 then [""]
    else
      var rest := Split(s[1..], sep);
      if s[0] == sep then
        assert s == [sep] + s[1..];
        [""] + rest
      else
        assert Join(rest, sep) == s[1..];
        var fields := [[s[0]] + rest[0]] + rest[1..];
        assert fields[1..] == rest[1..];
        assert s == [s[0]] + s[1..];
        fields
  }

  lemma {:induction false} OccurrencesAppend(a: string, b: string, c: char)
    ensures Occurrences(a + b, c) == Occurrences(a, c) + Occurrences(b, c)
  {
    if |a| == 0 {
      assert a + b == b;
    } else {
      assert (a + b)[1..] == a[1..] + b;
      OccurrencesAppend(a[1..], b, c);
    }
  }

  /** A separator-free field is its own only field. */
  lemma {:induction false} SplitWithoutSeparator(s: string, sep: char)
    requires sep !in s
    ensures Split(s, sep) == [s]
  {
    var fields := Split(s, sep);
    assert |fields| == 1;
    assert Join(fields, sep) == fields[0];
  }

  /** Two separator-free parts around one separator split back into
      exactly those two parts. */
  lemma {:induction false} SplitAtSeparator(a: string, b: string, sep: char)
    requires sep !in a && sep !in b
    ensures Split(a + [sep] + b, sep) == [a, b]
  {
    if |a| == 0 {
      assert a + [sep] + b == [sep] + b;
      assert ([sep] + b)[1..] == b;
      SplitWithoutSeparator(b, sep);
    } else {
      var s := a + [sep] + b;
      assert s[0] == a[0];
      assert s[1..] == a[1..] + [sep] + b;
      SplitAtSeparator(a[1..], b, sep);
      assert [a[0]] + a[1..] == a;
    }
  }

  /** strings.ToLower on the ASCII letters. */
  function ToLowerAscii(s: string): (r: string)
    ensures |r| == |s|
    ensures forall i | 0 <= i < |s| :: r[i] == (if 'A' <= s[i] <= 'Z' then (s[i] as int + 32) as char else s[i])
  {
    if |s| == 0 then ""
    else [if 'A' <= s[0] <= 'Z' then (s[0] as int + 32) as char else s[0]] + ToLowerAscii(s[1..])
  }

  /** Why the middleware rejected the request, or the verified payload it
      stores in the context before running the next handler. */
  datatype AuthOutcome =
    | NotProvided
    | BadFormat
    | UnsupportedType
    | InvalidToken(err: Error)
    | Authorized(payload: TokenApi.Claims)
  {
    /** Every rejection is answered with 401; an Authorized request goes
        on to the next handler, which chooses its own status. */
    function Status(): int
      requires !Authorized?
    {
      Http.StatusUnauthorized
    }

    /** The body of a rejection. */
    function Reason(): (err: Error)
      requires !Authorized?
      ensures InvalidToken? ==> err == this.err
    {
      match this
      case NotProvided => Msg("authorization header is not provided")
      case BadFormat => Msg("invalid authorization header format")
      case UnsupportedType => Msg("unsupported authorization header type")
      case InvalidToken(e) => e
    }
  }

  /** The outcome of verifying the token field. */
  function Verified(verdict: Result<TokenApi.Claims, Error>): AuthOutcome
  {
    match verdict
    case Ok(payload) => Authorized(payload)
    case Err(e) => InvalidToken(e)
  }

  function AuthMiddleware(header: string, verifyToken: string -> Result<TokenApi.Claims, Error>): (r: AuthOutcome)
    ensures r.NotProvided? <==> header == ""
    ensures r.BadFormat? <==> header != "" && Occurrences(header, ' ') != 1
    ensures header != "" && Occurrences(header, ' ') == 1 ==>
              var fields := Split(header, ' ');
              && |fields| == 2
              && (r.UnsupportedType? <==> ToLowerAscii(fields[0]) != AuthorizationTypeBearer)
              && (ToLowerAscii(fields[0]) == AuthorizationTypeBearer ==> r == Verified(verifyToken(fields[1])))
  {
    if header == "" then NotProvided
    else
      var fields := Split(header, ' ');
      if |fields| != 2 then BadFormat
      else if ToLowerAscii(fields[0]) != AuthorizationTypeBearer then UnsupportedType
      else Verified(verifyToken(fields[1]))
  }

  /** "Bearer", "BEARER", "bearer" and every other casing behave alike: a
      header made of such a type, one space and a space-free token is
      decided by verifying exactly that token. */
  lemma {:induction false} BearerAnyCase(kind: string, accessToken: string,
                                          verifyToken: string -> Result<TokenApi.Claims, Error>)
    requires ToLowerAscii(kind) == AuthorizationTypeBearer
    requires ' ' !in kind && ' ' !in accessToken
    ensures AuthMiddleware(kind + " " + accessToken, verifyToken) == Verified(verifyToken(accessToken))
  {
    var header := kind + " " + accessToken;
    assert header == kind + [' '] + accessToken;
    SplitAtSeparator(kind, accessToken, ' ');
    assert Split(header, ' ') == [kind, accessToken];
    assert header != "" by { assert header[|kind|] == ' '; }
  }

  /** The next handler runs only for a header with exactly one space whose
      first field is a bearer type and whose second field verifies. */
  lemma AuthorizedOnlyWhenVerified(header: string, verifyToken: string -> Result<TokenApi.Claims, Error>)
    ensures AuthMiddleware(header, verifyToken).Authorized? <==>
              && Occurrences(header, ' ') == 1
              && ToLowerAscii(Split(header, ' ')[0]) == AuthorizationTypeBearer
              && verifyToken(Split(header, ' ')[1]).Ok?
  {
  }
}
