/**
 * The admin gate put in front of every admin-only route: it reads the
 * `Authorization` header, accepts only the exact form `Bearer <token>`
 * (one space, scheme spelled with that case), has the token verified by
 * the signing library, and lets the request through only when the
 * verified claims say the caller is an admin.
 */
module AdminGate {
  import opened Wrappers
  import opened Strings

  /** The claims a verified token carries. */
  datatype Payload = Payload(userId: string, isAdmin: bool)

  /** The one outcome every request gets. */
  datatype Outcome = NoToken | BadFormat | InvalidToken | NotAdmin | Next(payload: Payload)

  const Scheme: string := "Bearer"

  /** The header is `Bearer`, one space, then a token holding no space. */
  predicate WellFormed(h: string) {
    |h| >= 7 && h[..7] == Scheme + " " && ' ' !in h[7..]
  }

  /** The token part of a well-formed header. */
  function TokenOf(h: string): string
    requires WellFormed(h)
  {
    h[7..]
  }

  /**
   * Splitting the header on " " gives exactly two parts with `Bearer`
   * first precisely when the header is well formed; the token is then
   * the rest of the header after the space.
   */
  lemma {:induction false} BearerSplit(h: string)
    ensures var parts := Split(h, ' ');
      (|parts| == 2 && parts[0] == Scheme) <==> WellFormed(h)
    ensures WellFormed(h) ==> Split(h, ' ')[1] == TokenOf(h)
  {
    var parts := Split(h, ' ');
    if WellFormed(h) {
      assert h == Scheme + [' '] + h[7..];
      SplitAtFirstSep(Scheme, h[7..], ' ');
      SplitWithoutSep(h[7..], ' ');
    }
    if |parts| == 2 && parts[0] == Scheme {
      JoinSplit(h, ' ');
      assert parts[1..] == [parts[1]];
      assert h == Scheme + [' '] + parts[1];
      assert h[..7] == Scheme + " ";
      assert h[7..] == parts[1];
    }
  }

  /**
   * The gate itself. `verify` is the signature check of the token library:
   * `None` when it throws, the decoded claims otherwise.
   */
  function Check(header: Option<string>, verify: string -> Option<Payload>): (o: Outcome)
    ensures o == NoToken <==> header.None? || header.value == ""
    ensures o == BadFormat <==> header.Some? && header.value != "" && !WellFormed(header.value)
    ensures o == InvalidToken <==>
      header.Some? && WellFormed(header.value) && verify(TokenOf(header.value)).None?
    ensures o == NotAdmin <==>
      header.Some? && WellFormed(header.value) && verify(TokenOf(header.value)).Some?
      && !verify(TokenOf(header.value)).value.isAdmin
    ensures o.Next? <==>
      header.Some? && WellFormed(header.value) && verify(TokenOf(header.value)).Some?
      && verify(TokenOf(header.value)).value.isAdmin
    ensures o.Next? ==> o.payload == verify(TokenOf(header.value)).value
  {
    if header.None? || header.value == "" then NoToken
    else
      var parts := Split(header.value, ' ');
      BearerSplit(header.value);
      if |parts| != 2 || parts[0] != Scheme then BadFormat
      else match verify(parts[1])
        case None => InvalidToken
        case Some(p) => if !p.isAdmin then NotAdmin else Next(p)
  }

  /** The response the gate sends; `None` means `next()` runs the handler. */
  function Response(o: Outcome): (r: Option<Reply>)
    ensures r.None? <==> o.Next?
    ensures r.Some? ==> r.value.Sent?
    ensures o == NoToken || o == BadFormat ==> r.value.status == 401
    ensures o == InvalidToken ==> r.value.status == 400
    ensures o == NotAdmin ==> r.value.status == 403
  {
    match o
    case NoToken => Some(Sent(401, "Access Denied: No token provided"))
    case BadFormat => Some(Sent(401, "Access Denied: Invalid token format"))
    case InvalidToken => Some(Sent(400, "Invalid token"))
    case NotAdmin => Some(Sent(403, "Access Denied: Not an Admin"))
    case Next(_) => None
  }

  /** A header that is absent or malformed is answered without consulting the verifier. */
  lemma MalformedNotVerified(header: Option<string>, v1: string -> Option<Payload>, v2: string -> Option<Payload>)
    requires header.None? || !WellFormed(header.value)
    ensures Check(header, v1) == Check(header, v2)
    ensures Response(Check(header, v1)).Some? && Response(Check(header, v1)).value.status == 401
  {
  }

  /** Two spaces after the scheme make three parts, so the header is refused. */
  lemma DoubleSpaceRefused(verify: string -> Option<Payload>)
    ensures Check(Some("Bearer  x"), verify) == BadFormat
  {
    assert !WellFormed("Bearer  x") by { assert "Bearer  x"[7..][0] == ' '; }
  }

  /** The scheme name is compared case-sensitively. */
  lemma LowerCaseSchemeRefused(verify: string -> Option<Payload>)
    ensures Check(Some("bearer x"), verify) == BadFormat
  {
    assert "bearer x"[..7] != Scheme + " " by { assert "bearer x"[0] == 'b'; }
  }
}
