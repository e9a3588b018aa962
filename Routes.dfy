/**
 * The route handlers of app.js as decisions over their collaborators' replies:
 * `/register` and `/login` (public), `GET /users` and `DELETE /users/:id`
 * (behind the authentication gate). The store queries and the token signer
 * are parameters; each handler reports the reply it writes and the calls it
 * makes, so that "the store is not called" is a statement about that trace.
 */
module Routes {
  import opened Wrappers
  import opened Js
  import opened Api
  import opened Auth

  const FieldsRequiredMessage: string := "All fields are required"
  const RegisteredMessage: string := "User registered successfully"
  const EmailRequiredMessage: string := "Email is required"
  const UserNotFoundMessage: string := "User not found"
  const LoginMessage: string := "Login successful"
  const DeletedMessage: string := "User deleted successfully"

  /** A handler's outcome: the response it writes and the collaborator calls it makes, in order. */
  datatype Handled = Handled(reply: Reply, calls: seq<Call>)

  /** The four registration fields as they appear in the body. */
  function Submitted(body: map<string, JsValue>): NewUser {
    NewUser(Field(body, "name"), Field(body, "email"), Field(body, "department_id"), Field(body, "role_id"))
  }

  /** Every registration field is truthy. */
  predicate Complete(u: NewUser) {
    Truthy(u.name) && Truthy(u.email) && Truthy(u.departmentId) && Truthy(u.roleId)
  }

  /**
   * `POST /register`: 400 without touching the store when a field is falsy;
   * otherwise one INSERT of the submitted values, then 500 with the driver's
   * message or 201 with the new row's id.
   */
  function Register(body: map<string, JsValue>, insert: NewUser -> StoreReply<int>): (h: Handled)
    ensures h.reply.status == 400 <==> !Complete(Submitted(body))
    ensures h.reply.status == 400 ==> h == Handled(Reply(400, Message(FieldsRequiredMessage)), [])
    ensures h.reply.status != 400 ==> h.calls == [InsertUser(Submitted(body))]
    ensures h.reply.status == 500 <==> Complete(Submitted(body)) && insert(Submitted(body)).StoreError?
    ensures h.reply.status == 500 ==> h.reply.body == StoreFailure(insert(Submitted(body)).message)
    ensures h.reply.status == 201 <==> Complete(Submitted(body)) && insert(Submitted(body)).StoreOk?
    ensures h.reply.status == 201 ==> h.reply.body == Registered(RegisteredMessage, insert(Submitted(body)).value)
  {
    var name, email, departmentId, roleId :=
      Field(body, "name"), Field(body, "email"), Field(body, "department_id"), Field(body, "role_id");
    if !Truthy(name) || !Truthy(email) || !Truthy(departmentId) || !Truthy(roleId) then
      Handled(Reply(400, Message(FieldsRequiredMessage)), [])
    else
      var user := NewUser(name, email, departmentId, roleId);
      match insert(user)
      case StoreError(message) => Handled(Reply(500, StoreFailure(message)), [InsertUser(user)])
      case StoreOk(insertId) => Handled(Reply(201, Registered(RegisteredMessage, insertId)), [InsertUser(user)])
  }

  /**
   * `POST /login`: 400 without touching the store when the email is falsy;
   * otherwise one lookup by email, then 500 with the driver's message, 404
   * when no row matches, or 200 with a token signed over the id and email of
   * the first row. No password or other proof of identity is asked for.
   */
  function Login(body: map<string, JsValue>, find: JsValue -> StoreReply<seq<UserRow>>, sign: TokenClaims -> string): (h: Handled)
    ensures !Truthy(Field(body, "email")) <==> h == Handled(Reply(400, Message(EmailRequiredMessage)), [])
    ensures Truthy(Field(body, "email")) ==> |h.calls| >= 1 && h.calls[0] == SelectUserByEmail(Field(body, "email"))
    ensures h.reply.status == 500 <==> Truthy(Field(body, "email")) && find(Field(body, "email")).StoreError?
    ensures h.reply.status == 500 ==>
      h.reply.body == StoreFailure(find(Field(body, "email")).message) && |h.calls| == 1
    ensures h.reply.status == 404 <==> Truthy(Field(body, "email")) && find(Field(body, "email")) == StoreOk([])
    ensures h.reply.status == 404 ==> h.reply.body == Message(UserNotFoundMessage) && |h.calls| == 1
    ensures h.reply.status == 200 <==>
      Truthy(Field(body, "email")) && find(Field(body, "email")).StoreOk? && find(Field(body, "email")).value != []
    ensures h.reply.status == 200 ==>
      var first := find(Field(body, "email")).value[0];
      var claims := TokenClaims(first.id, first.email);
      h.calls == [SelectUserByEmail(Field(body, "email")), SignJwt(claims)] &&
      h.reply.body == LoggedIn(LoginMessage, sign(claims))
  {
    var email := Field(body, "email");
    if !Truthy(email) then
      Handled(Reply(400, Message(EmailRequiredMessage)), [])
    else
      match find(email)
      case StoreError(message) => Handled(Reply(500, StoreFailure(message)), [SelectUserByEmail(email)])
      case StoreOk(results) =>
        if |results| == 0 then
          Handled(Reply(404, Message(UserNotFoundMessage)), [SelectUserByEmail(email)])
        else
          var user := results[0];
          var claims := TokenClaims(user.id, user.email);
          Handled(Reply(DefaultStatus, LoggedIn(LoginMessage, sign(claims))), [SelectUserByEmail(email), SignJwt(claims)])
  }

  /** The `GET /users` handler: the listing rows, unchanged, or 500 with the driver's message. */
  function ListUsers(listing: StoreReply<seq<ListedUser>>): (h: Handled)
    ensures h.calls == [SelectAllUsers]
    ensures h.reply.status == 200 <==> listing.StoreOk?
    ensures listing.StoreOk? ==> h.reply.body == Users(listing.value)
    ensures listing.StoreError? ==> h.reply == Reply(500, StoreFailure(listing.message))
  {
    match listing
    case StoreError(message) => Handled(Reply(500, StoreFailure(message)), [SelectAllUsers])
    case StoreOk(results) => Handled(Reply(DefaultStatus, Users(results)), [SelectAllUsers])
  }

  /**
   * The `DELETE /users/:id` handler: one DELETE by the path id, then 500 with
   * the driver's message or 200, however many rows the DELETE removed.
   */
  function DeleteUser(id: string, delete: string -> StoreReply<nat>): (h: Handled)
    ensures h.calls == [DeleteUserById(id)]
    ensures h.reply.status == 200 <==> delete(id).StoreOk?
    ensures delete(id).StoreOk? ==> h.reply.body == Message(DeletedMessage)
    ensures delete(id).StoreError? ==> h.reply == Reply(500, StoreFailure(delete(id).message))
  {
    match delete(id)
    case StoreError(message) => Handled(Reply(500, StoreFailure(message)), [DeleteUserById(id)])
    case StoreOk(_) => Handled(Reply(DefaultStatus, Message(DeletedMessage)), [DeleteUserById(id)])
  }

  /**
   * A route registered as `(path, verifyToken, handler)`: the gate runs first,
   * and the handler runs, on the attached identity, only when the gate forwards.
   */
  function Protected(header: Option<string>, verify: Verifier, handler: JsValue -> Handled): (h: Handled)
    ensures !BearerFormat(header) ==> h == Handled(Reply(403, Message(NoTokenMessage)), [])
    ensures BearerFormat(header) ==>
      |h.calls| >= 1 && h.calls[0].VerifyJwt? && IsBearerToken(header.value, h.calls[0].token)
    ensures Authenticate(header, verify).verdict.Reject? ==>
      h.calls == Authenticate(header, verify).calls && h.reply == Authenticate(header, verify).verdict.reply
    ensures Authenticate(header, verify).verdict.Proceed? ==>
      var user := Authenticate(header, verify).verdict.user;
      h.reply == handler(user).reply && h.calls == Authenticate(header, verify).calls + handler(user).calls
  {
    var gate := Authenticate(header, verify);
    match gate.verdict
    case Reject(reply) => Handled(reply, gate.calls)
    case Proceed(user) =>
      var handled := handler(user);
      Handled(handled.reply, gate.calls + handled.calls)
  }

  /** `GET /users`. */
  function GetUsers(header: Option<string>, verify: Verifier, listing: StoreReply<seq<ListedUser>>): (h: Handled)
    ensures h.reply.status == 200 <==> Authenticate(header, verify).verdict.Proceed? && listing.StoreOk?
    ensures h.reply.status == 200 ==> h.reply.body == Users(listing.value)
    ensures SelectAllUsers in h.calls <==> Authenticate(header, verify).verdict.Proceed?
  {
    Protected(header, verify, _ => ListUsers(listing))
  }

  /** `DELETE /users/:id`. */
  function DeleteUserRoute(header: Option<string>, id: string, verify: Verifier, delete: string -> StoreReply<nat>): (h: Handled)
    ensures h.reply.status == 200 <==> Authenticate(header, verify).verdict.Proceed? && delete(id).StoreOk?
    ensures h.reply.status == 200 ==> h.reply.body == Message(DeletedMessage)
    ensures DeleteUserById(id) in h.calls <==> Authenticate(header, verify).verdict.Proceed?
  {
    Protected(header, verify, _ => DeleteUser(id, delete))
  }

  /**
   * No role check: whatever claims two verifiers attach, as long as both let
   * the request through, the delete route answers alike.
   */
  lemma DeleteIgnoresIdentity(header: Option<string>, id: string, v1: Verifier, v2: Verifier, delete: string -> StoreReply<nat>)
    requires Authenticate(header, v1).verdict.Proceed? && Authenticate(header, v2).verdict.Proceed?
    ensures DeleteUserRoute(header, id, v1, delete).reply == DeleteUserRoute(header, id, v2, delete).reply
  {
  }

  /** A DELETE that removes no row still answers 200 with the success message. */
  lemma NoOpDeleteSucceeds(header: Option<string>, id: string, verify: Verifier, delete: string -> StoreReply<nat>)
    requires Authenticate(header, verify).verdict.Proceed? && delete(id) == StoreOk(0)
    ensures DeleteUserRoute(header, id, verify, delete).reply == Reply(200, Message(DeletedMessage))
  {
  }

  /** Only the first matching row matters at login: rows after it never reach the signer or the reply. */
  lemma LoginUsesFirstRow(body: map<string, JsValue>, f1: JsValue -> StoreReply<seq<UserRow>>,
                          f2: JsValue -> StoreReply<seq<UserRow>>, sign: TokenClaims -> string)
    requires f1(Field(body, "email")).StoreOk? && f2(Field(body, "email")).StoreOk?
    requires f1(Field(body, "email")).value != [] && f2(Field(body, "email")).value != []
    requires f1(Field(body, "email")).value[0] == f2(Field(body, "email")).value[0]
    ensures Login(body, f1, sign) == Login(body, f2, sign)
  {
  }

  /**
   * A token issued at login, sent back as `Bearer <token>`, is exactly what
   * the gate hands the verifier, provided the signer never emits a space (a
   * compact JWS is base64url text and dots). If the verifier accepts what the
   * signer issues, the request goes through carrying the first row's claims.
   */
  lemma LoginTokenOpensGate(body: map<string, JsValue>, find: JsValue -> StoreReply<seq<UserRow>>,
                            sign: TokenClaims -> string, verify: Verifier, decoded: TokenClaims -> JsValue)
    requires forall c :: ' ' !in sign(c)
    requires forall c :: verify(sign(c)) == Success(decoded(c))
    requires Login(body, find, sign).reply.status == 200
    ensures var first := find(Field(body, "email")).value[0];
      var token := Login(body, find, sign).reply.body.token;
      Authenticate(Some(BearerPrefix + token), verify)
        == Gate([VerifyJwt(token)], Proceed(decoded(TokenClaims(first.id, first.email))))
  {
    var first := find(Field(body, "email")).value[0];
    var claims := TokenClaims(first.id, first.email);
    var token := sign(claims);
    var h := BearerPrefix + token;
    assert StartsWith(h, BearerPrefix) by { assert h[..|BearerPrefix|] == BearerPrefix; }
    assert IsBearerToken(h, token) by { assert h[|BearerPrefix|..|BearerPrefix| + |token|] == token; }
    SuccessProceeds(h, token, verify);
  }

  /** A typical registration, and validation by truthiness rather than by presence. */
  lemma RegisterExamples(insert: NewUser -> StoreReply<int>)
    requires forall u :: insert(u) == StoreOk(7)
    ensures Register(map["name" := Str("A"), "email" := Str("a@x.com"), "department_id" := Num(1.0), "role_id" := Num(1.0)], insert).reply
      == Reply(201, Registered(RegisteredMessage, 7))
    ensures Register(map["name" := Str("A"), "email" := Str("a@x.com"), "department_id" := Num(0.0), "role_id" := Num(1.0)], insert).reply.status == 400
    ensures Register(map["name" := Str("A"), "email" := Str("a@x.com"), "department_id" := Str("0"), "role_id" := Num(1.0)], insert).reply.status == 201
    ensures Register(map["name" := Str("A"), "email" := Str("a@x.com"), "department_id" := Num(1.0)], insert).reply.status == 400
  {
  }

  /**
   * A protected route on a request in flight, as Express runs the chain:
   * the gate first, then, only if it called `next()`, the handler on
   * `req.user`. What is written is the decision `Protected` describes.
   */
  method Serve(ex: Exchange, verify: Verifier, handler: JsValue -> Handled)
    modifies ex
    ensures ex.sent == Some(Protected(ex.authorization, verify, handler).reply.body)
    ensures ex.statusCode == Protected(ex.authorization, verify, handler).reply.status
    ensures ex.nextCalls == old(ex.nextCalls) + (if Authenticate(ex.authorization, verify).verdict.Proceed? then 1 else 0)
    ensures ex.user == (if Authenticate(ex.authorization, verify).verdict.Proceed?
                        then Some(Authenticate(ex.authorization, verify).verdict.user) else old(ex.user))
  {
    var before := ex.nextCalls;
    VerifyToken(ex, verify);
    if ex.nextCalls != before {
      var handled := handler(ex.user.value);
      ex.Send(handled.reply);
    }
  }
}
