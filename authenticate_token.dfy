/** The `authenticateToken` middleware.  The credential is the second
    space-separated piece of the Authorization header, in the shape of
    section 2.1 of RFC 6750 ("Bearer" SP token) except that the scheme word
    is not checked.  No credential is a 401, a credential the verifier
    rejects a 403, and otherwise the decoded payload becomes `req.user` and
    the next handler runs.  jwt's verify, with the server's secret, is a
    parameter. */
module AuthenticateToken {
  import opened Js

  /** The Authorization header of a request; "" when it is missing. */
  function Header(headers: map<string, string>): string {
    if "authorization" in headers then headers["authorization"] else ""
  }

  /** `authHeader && authHeader.split(' ')[1]`, when that is truthy. */
  function Credential(header: string): (r: Option<string>)
    ensures r.Some? <==> |Split(header, ' ')| >= 2 && Split(header, ' ')[1] != ""
    ensures r.Some? ==> r.value == Split(header, ' ')[1]
  {
    if header == "" then None
    else
      var pieces := Split(header, ' ');
      if |pieces| >= 2 && pieces[1] != "" then Some(pieces[1]) else None
  }

  /** Any scheme word before the one space is accepted, "Bearer" or not. */
  lemma SchemeNotChecked(scheme: string, token: string)
    requires ' ' !in scheme && ' ' !in token && token != ""
    ensures Credential(scheme + " " + token) == Some(token)
  {
    SplitPair(scheme, token, ' ');
  }

  /** Pieces after the credential are ignored. */
  lemma LaterPiecesIgnored(scheme: string, token: string, rest: string)
    requires ' ' !in scheme && ' ' !in token && token != ""
    ensures Credential(scheme + " " + token + " " + rest) == Some(token)
  {
    var h := scheme + " " + token + " " + rest;
    assert h == scheme + [' '] + (token + [' '] + rest);
    SplitAtFirst(scheme, token + [' '] + rest, ' ');
    SplitAtFirst(token, rest, ' ');
  }

  /** A header without a space carries no credential. */
  lemma NoSpaceNoCredential(header: string)
    requires ' ' !in header
    ensures Credential(header).None?
  {
    SplitNoSeparator(header, ' ');
  }

  /** Two spaces after the scheme leave an empty second piece: no credential. */
  lemma DoubleSpaceNoCredential(scheme: string, rest: string)
    requires ' ' !in scheme
    ensures Credential(scheme + "  " + rest).None?
  {
    var h := scheme + "  " + rest;
    assert h == scheme + [' '] + ([] + [' '] + rest);
    SplitAtFirst(scheme, [] + [' '] + rest, ' ');
    SplitAtFirst([], rest, ' ');
  }

  /** What the middleware does with a request. */
  datatype Decision =
    | Unauthorized         // 401 'Access token required'
    | Forbidden            // 403 'Invalid or expired token'
    | Proceed(user: Object)

  function Status(d: Decision): int
    requires !d.Proceed?
  {
    if d.Unauthorized? then 401 else 403
  }

  function Text(d: Decision): string
    requires !d.Proceed?
  {
    if d.Unauthorized? then "Access token required" else "Invalid or expired token"
  }

  /** No credential is refused before the verifier is asked; a credential it
      rejects is forbidden; one it accepts lets the request through with the
      payload it decoded. */
  function Decide(header: string, verify: string -> Result<Object, string>): (d: Decision)
    ensures d == Unauthorized <==> Credential(header).None?
    ensures d == Forbidden <==> Credential(header).Some? && verify(Credential(header).value).Err?
    ensures d.Proceed? ==> verify(Split(header, ' ')[1]) == Ok(d.user)
  {
    match Credential(header)
    case None => Unauthorized
    case Some(token) =>
      match verify(token)
      case Err(_) => Forbidden
      case Ok(user) => Proceed(user)
  }

  /** A header carrying a credential the verifier accepts, after any scheme
      word, lets the request through. */
  lemma AcceptedTokenProceeds(scheme: string, token: string, verify: string -> Result<Object, string>)
    requires ' ' !in scheme && ' ' !in token && token != "" && verify(token).Ok?
    ensures Decide(scheme + " " + token, verify) == Proceed(verify(token).value)
  {
    SchemeNotChecked(scheme, token);
  }

  /** The request and response the middleware sees: the headers, `req.user`,
      what was sent back, and how often `next` ran. */
  class Exchange {
    const headers: map<string, string>
    var user: Option<Object>
    var status: Option<int>
    var message: Option<string>
    var nextCalls: nat

    constructor (headers: map<string, string>)
      ensures this.headers == headers && user == None && status == None && message == None
      ensures nextCalls == 0
    {
      this.headers := headers;
      user := None;
      status := None;
      message := None;
      nextCalls := 0;
    }
  }

  /** `authenticateToken(req, res, next)` */
  method AuthenticateToken(x: Exchange, verify: string -> Result<Object, string>)
    modifies x
    ensures var d := Decide(Header(x.headers), verify);
      if d.Proceed? then
        x.user == Some(d.user) && x.nextCalls == old(x.nextCalls) + 1
        && x.status == old(x.status) && x.message == old(x.message)
      else
        x.status == Some(Status(d)) && x.message == Some(Text(d))
        && x.user == old(x.user) && x.nextCalls == old(x.nextCalls)
  {
    var token := Credential(Header(x.headers));
    if token.None? {
      x.status, x.message := Some(401), Some("Access token required");
      return;
    }
    match verify(token.value)
    case Err(_) =>
      x.status, x.message := Some(403), Some("Invalid or expired token");
    case Ok(user) =>
      x.user := Some(user);
      x.nextCalls := x.nextCalls + 1;
  }
}
