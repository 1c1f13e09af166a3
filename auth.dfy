/** The token gate every posts route runs first: read the `x-auth-token` header,
    reject a missing or unverifiable token with 401, otherwise attach the token's
    user to the request and pass control on. The signature check is the parameter
    `verify`, standing for `jwt.verify` with the server's secret. */
module Auth {
  import opened Entities

  const TokenHeader: string := "x-auth-token"

  const NoToken: Response := Response(401, MsgBody("No token, authorization denied"))
  const BadToken: Response := Response(401, MsgBody("Token is not valid"))

  /** The three ways the gate can decide. */
  datatype Decision = Missing | Invalid | Pass(user: Identity)

  /** The decision on a request with these headers. */
  function Gate(headers: map<string, string>, verify: string -> Option<Identity>): (d: Decision)
    ensures d.Missing? <==> TokenHeader !in headers || headers[TokenHeader] == ""
    ensures d.Invalid? <==>
      TokenHeader in headers && headers[TokenHeader] != "" && verify(headers[TokenHeader]).None?
    ensures d.Pass? <==>
      TokenHeader in headers && headers[TokenHeader] != "" && verify(headers[TokenHeader]).Some?
    ensures d.Pass? ==> verify(headers[TokenHeader]) == Some(d.user)
  {
    if TokenHeader !in headers || headers[TokenHeader] == "" then Missing
    else
      match verify(headers[TokenHeader])
      case None => Invalid
      case Some(user) => Pass(user)
  }

  /** The response sent when the gate rejects. */
  function Rejection(d: Decision): (r: Response)
    requires !d.Pass?
    ensures r.status == 401
    ensures d.Missing? ==> r.body == MsgBody("No token, authorization denied")
    ensures d.Invalid? ==> r.body == MsgBody("Token is not valid")
  {
    if d.Missing? then NoToken else BadToken
  }

  /** Only the `x-auth-token` header matters: requests that agree on it are decided alike. */
  lemma GateReadsOnlyTokenHeader(h1: map<string, string>, h2: map<string, string>, verify: string -> Option<Identity>)
    requires TokenHeader in h1 <==> TokenHeader in h2
    requires TokenHeader in h1 ==> h1[TokenHeader] == h2[TokenHeader]
    ensures Gate(h1, verify) == Gate(h2, verify)
  {
  }

  /** The parts of an Express request the posts routes read. */
  class Request {
    const headers: map<string, string>
    var user: Option<Identity>

    constructor (headers: map<string, string>)
      ensures this.headers == headers && user == None
    {
      this.headers := headers;
      user := None;
    }
  }

  /** The middleware. It either answers (`rejected` is the response and `next` is
      not called) or sets `req.user` and calls `next` once; never both. */
  method Authenticate(req: Request, verify: string -> Option<Identity>)
    returns (rejected: Option<Response>, nextCalls: nat)
    modifies req`user
    ensures rejected.None? <==> nextCalls == 1
    ensures rejected.Some? <==> nextCalls == 0
    ensures Gate(req.headers, verify).Pass? ==>
      rejected == None && req.user == Some(Gate(req.headers, verify).user)
    ensures !Gate(req.headers, verify).Pass? ==>
      rejected == Some(Rejection(Gate(req.headers, verify))) && req.user == old(req.user)
  {
    if TokenHeader !in req.headers || req.headers[TokenHeader] == "" {
      return Some(NoToken), 0;
    }
    var decoded := verify(req.headers[TokenHeader]);
    if decoded.None? {
      return Some(BadToken), 0;
    }
    req.user := Some(decoded.value);
    rejected, nextCalls := None, 1;
  }
}
