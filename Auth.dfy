/**
 * The authentication gate in front of the protected routes (`verifyToken` in
 * app.js): a case-sensitive `Bearer ` prefix check on the `Authorization`
 * header, extraction of the token as the second space-separated field, one
 * call to the token verifier, and then either a rejection (403 or 401) or
 * forwarding the request with the verifier's claims attached.
 *
 * The verifier (`jwt.verify` with the process-wide secret) is a parameter:
 * any function from the token string to claims or an error.
 */
module Auth {
  import opened Wrappers
  import opened Js
  import opened Api

  const BearerPrefix: string := "Bearer "
  const NoTokenMessage: string := "Access denied. No token provided or incorrect format."
  const BadTokenMessage: string := "Invalid or expired token."

  /** Some of the ways `jwt.verify` can throw; the gate cannot tell any failure from another. */
  datatype VerifyError = Malformed | InvalidSignature | Expired | NotYetActive

  /** `jwt.verify(token, secret)` with the secret fixed: the decoded payload, or the error it throws. */
  type Verifier = string -> Result<JsValue, VerifyError>

  /** What the gate decides: forward with `req.user` set to the claims, or answer with a rejection. */
  datatype Verdict = Proceed(user: JsValue) | Reject(reply: Reply)

  /** The gate's decision together with the collaborator calls it made on the way. */
  datatype Gate = Gate(calls: seq<Call>, verdict: Verdict)

  /** The header passes the format check: present and starting with exactly `Bearer `. */
  predicate BearerFormat(header: Option<string>) {
    header.Some? && StartsWith(header.value, BearerPrefix)
  }

  /**
   * `t` is the text after the prefix up to the next space or the end of the
   * header; since the prefix holds exactly one space, at its end, this is the
   * text between the header's first and second space.
   */
  predicate IsBearerToken(h: string, t: string) {
    var k := |BearerPrefix|;
    k + |t| <= |h| && h[k..k + |t|] == t && ' ' !in t && (k + |t| == |h| || h[k + |t|] == ' ')
  }

  /** At most one string is the bearer token of a header. */
  lemma BearerTokenUnique(h: string, t1: string, t2: string)
    requires IsBearerToken(h, t1) && IsBearerToken(h, t2)
    ensures t1 == t2
  {
  }

  /** When the prefix check passes, `split(" ")` has a second element and it is the bearer token. */
  lemma BearerSplit(h: string)
    requires StartsWith(h, BearerPrefix)
    ensures |Split(h, ' ')| >= 2 && IsBearerToken(h, Split(h, ' ')[1])
  {
    var k := |BearerPrefix|;
    var rest := h[k..];
    assert h == "Bearer" + [' '] + rest by {
      assert h == h[..k] + rest;
      assert h[..k] == BearerPrefix == "Bearer" + [' '];
    }
    SplitAfterFirst("Bearer", ' ', rest);
    var t := Split(rest, ' ')[0];
    assert Split(h, ' ')[1] == t;
    BearerTokenOfRest(h, t);
  }

  /** The first piece of what follows the prefix is the bearer token. */
  lemma BearerTokenOfRest(h: string, t: string)
    requires StartsWith(h, BearerPrefix)
    requires t <= h[|BearerPrefix|..] && ' ' !in t
    requires |t| == |h| - |BearerPrefix| || h[|BearerPrefix|..][|t|] == ' '
    ensures IsBearerToken(h, t)
  {
    var k := |BearerPrefix|;
    assert h[k..k + |t|] == h[k..][..|t|];
  }

  /**
   * The gate as a decision. A header that is absent or lacks the exact prefix
   * is refused with 403 before the verifier is consulted; otherwise the
   * verifier is called once, on the bearer token, and its failure (of any
   * kind) gives 401 while its success forwards the request with its claims.
   */
  function Authenticate(header: Option<string>, verify: Verifier): (g: Gate)
    ensures !BearerFormat(header) <==> g.calls == []
    ensures !BearerFormat(header) ==> g.verdict == Reject(Reply(403, Message(NoTokenMessage)))
    ensures BearerFormat(header) ==>
      |g.calls| == 1 && g.calls[0].VerifyJwt? && IsBearerToken(header.value, g.calls[0].token)
    ensures BearerFormat(header) ==> (g.verdict.Proceed? <==> verify(g.calls[0].token).Success?)
    ensures g.verdict.Proceed? ==> g.verdict.user == verify(g.calls[0].token).value
    ensures BearerFormat(header) && g.verdict.Reject? ==> g.verdict.reply == Reply(401, Message(BadTokenMessage))
  {
    if header == None || !Truthy(Str(header.value)) || !StartsWith(header.value, BearerPrefix) then
      Gate([], Reject(Reply(403, Message(NoTokenMessage))))
    else
      BearerSplit(header.value);
      var token := Split(header.value, ' ')[1];
      match verify(token)
      case Success(claims) => Gate([VerifyJwt(token)], Proceed(claims))
      case Failure(_) => Gate([VerifyJwt(token)], Reject(Reply(401, Message(BadTokenMessage))))
  }

  /** Every verifier failure on the bearer token, whatever its kind, yields the same 401 and nothing else. */
  lemma FailureIsUnauthorized(h: string, t: string, verify: Verifier)
    requires StartsWith(h, BearerPrefix) && IsBearerToken(h, t) && verify(t).Failure?
    ensures Authenticate(Some(h), verify) == Gate([VerifyJwt(t)], Reject(Reply(401, Message(BadTokenMessage))))
  {
    var g := Authenticate(Some(h), verify);
    BearerTokenUnique(h, g.calls[0].token, t);
    assert g.calls == [VerifyJwt(t)];
  }

  /** A verifier success on the bearer token forwards the request with exactly the returned claims. */
  lemma SuccessProceeds(h: string, t: string, verify: Verifier)
    requires StartsWith(h, BearerPrefix) && IsBearerToken(h, t) && verify(t).Success?
    ensures Authenticate(Some(h), verify) == Gate([VerifyJwt(t)], Proceed(verify(t).value))
  {
    var g := Authenticate(Some(h), verify);
    BearerTokenUnique(h, g.calls[0].token, t);
    assert g.calls == [VerifyJwt(t)];
  }

  /**
   * The gate reveals nothing about why a token failed: two verifiers that
   * agree on which tokens succeed, and on their claims, give the same gate.
   */
  lemma RejectionHidesCause(header: Option<string>, v1: Verifier, v2: Verifier)
    requires forall t :: v1(t).Success? == v2(t).Success?
    requires forall t :: v1(t).Success? ==> v1(t).value == v2(t).value
    ensures Authenticate(header, v1) == Authenticate(header, v2)
  {
    if BearerFormat(header) {
      var g1, g2 := Authenticate(header, v1), Authenticate(header, v2);
      BearerTokenUnique(header.value, g1.calls[0].token, g2.calls[0].token);
    }
  }

  /** Headers refused by the format check, the verifier never being consulted. */
  lemma RefusedHeaderExamples(verify: Verifier)
    ensures Authenticate(None, verify) == Gate([], Reject(Reply(403, Message(NoTokenMessage))))
    ensures Authenticate(Some(""), verify) == Gate([], Reject(Reply(403, Message(NoTokenMessage))))
    ensures Authenticate(Some("bearer x"), verify) == Gate([], Reject(Reply(403, Message(NoTokenMessage))))
    ensures Authenticate(Some("Bearer"), verify) == Gate([], Reject(Reply(403, Message(NoTokenMessage))))
    ensures Authenticate(Some("Basic x"), verify) == Gate([], Reject(Reply(403, Message(NoTokenMessage))))
  {
    assert !StartsWith("bearer x", BearerPrefix) by { assert "bearer x"[0] != BearerPrefix[0]; }
    assert !StartsWith("Basic x", BearerPrefix) by { assert "Basic x"[1] != BearerPrefix[1]; }
  }

  /** Only the second space-separated field is handed to the verifier: trailing fields are ignored. */
  lemma TrailingFieldExample(verify: Verifier)
    ensures Authenticate(Some("Bearer a b"), verify).calls == [VerifyJwt("a")]
  {
    var h := "Bearer a b";
    assert StartsWith(h, BearerPrefix) by { assert h[..7] == BearerPrefix; }
    assert IsBearerToken(h, "a") by { assert h[7..8] == "a"; assert h[8] == ' '; }
    BearerTokenUnique(h, Authenticate(Some(h), verify).calls[0].token, "a");
  }

  /** A prefix with nothing after it, or with a second space right after it, hands the verifier "". */
  lemma EmptyTokenExamples(verify: Verifier)
    ensures Authenticate(Some("Bearer "), verify).calls == [VerifyJwt("")]
    ensures Authenticate(Some("Bearer  a"), verify).calls == [VerifyJwt("")]
  {
    var h1, h2 := "Bearer ", "Bearer  a";
    assert StartsWith(h1, BearerPrefix) by { assert h1[..7] == BearerPrefix; }
    assert StartsWith(h2, BearerPrefix) by { assert h2[..7] == BearerPrefix; }
    assert IsBearerToken(h1, "");
    assert IsBearerToken(h2, "") by { assert h2[7] == ' '; }
    BearerTokenUnique(h1, Authenticate(Some(h1), verify).calls[0].token, "");
    BearerTokenUnique(h2, Authenticate(Some(h2), verify).calls[0].token, "");
  }

  /**
   * `verifyToken(req, res, next)` on a request in flight. A rejection writes
   * the response and leaves `req.user` and the chain alone; a success sets
   * `req.user` to the claims, calls `next()` exactly once and writes nothing.
   */
  method VerifyToken(ex: Exchange, verify: Verifier)
    modifies ex
    ensures match Authenticate(ex.authorization, verify).verdict
      case Proceed(claims) =>
        ex.user == Some(claims) && ex.nextCalls == old(ex.nextCalls) + 1 &&
        ex.statusCode == old(ex.statusCode) && ex.sent == old(ex.sent)
      case Reject(reply) =>
        ex.user == old(ex.user) && ex.nextCalls == old(ex.nextCalls) &&
        ex.statusCode == reply.status && ex.sent == Some(reply.body)
  {
    var header := ex.authorization;
    if header == None || !Truthy(Str(header.value)) || !StartsWith(header.value, BearerPrefix) {
      ex.Send(Reply(403, Message(NoTokenMessage)));
      return;
    }
    BearerSplit(header.value);
    var token := Split(header.value, ' ')[1];
    match verify(token) {
      case Success(claims) =>
        ex.user := Some(claims);
        ex.Next();
      case Failure(_) =>
        ex.Send(Reply(401, Message(BadTokenMessage)));
    }
  }
}
