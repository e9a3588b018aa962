/**
 * The data the request-decision layer exchanges with its collaborators and
 * with the client: user records as the store returns them, the claims handed
 * to the token signer, the replies the handlers write, a trace of the
 * collaborator calls made while deciding a request, and the in-flight
 * request/response pair that the authentication middleware updates in place.
 */
module Api {
  import opened Wrappers
  import opened Js

  /** A `users` row as `SELECT * FROM users` returns it. */
  datatype UserRow = UserRow(id: int, name: string, email: string, departmentId: int, roleId: int)

  /** A row of the user listing: `users.id, users.name, users.email` and the joined department name, null when absent. */
  datatype ListedUser = ListedUser(id: int, name: string, email: string, department: Option<string>)

  /** The values `/register` passes to the INSERT, exactly as they came in the body. */
  datatype NewUser = NewUser(name: JsValue, email: JsValue, departmentId: JsValue, roleId: JsValue)

  /** The claims object `{ userId, email }` given to the token signer at login. */
  datatype TokenClaims = TokenClaims(userId: int, email: string)

  /** The result of a store query: the driver's error (its message) or the query's result. */
  datatype StoreReply<T> = StoreError(message: string) | StoreOk(value: T)

  /** A call to a collaborator: the token verifier, the store, or the token signer. */
  datatype Call =
    | VerifyJwt(token: string)
    | InsertUser(user: NewUser)
    | SelectUserByEmail(email: JsValue)
    | SelectAllUsers
    | DeleteUserById(id: string)
    | SignJwt(claims: TokenClaims)

  /** The JSON bodies the service writes. */
  datatype Body =
    | Message(message: string)                   // { message }
    | StoreFailure(error: string)                // { error: err.message }
    | Registered(message: string, userId: int)   // { message, userId }
    | LoggedIn(message: string, token: string)   // { message, token }
    | Users(rows: seq<ListedUser>)               // the listing rows as an array

  /** A complete response: the status code and the JSON body. */
  datatype Reply = Reply(status: int, body: Body)

  /** Express's default response status, kept when a handler calls `res.json` alone. */
  const DefaultStatus: int := 200

  /**
   * One request in flight together with its response: the `Authorization`
   * header it arrived with, the identity the middleware attaches as
   * `req.user`, the response status and body once written, and the number of
   * times the middleware handed the request on by calling `next()`.
   */
  class Exchange {
    const authorization: Option<string>
    var user: Option<JsValue>
    var statusCode: int
    var sent: Option<Body>
    var nextCalls: nat

    /** A request as it reaches the middleware: no identity, no response written, not yet forwarded. */
    constructor (authorization: Option<string>)
      ensures this.authorization == authorization
      ensures user == None && statusCode == DefaultStatus && sent == None && nextCalls == 0
    {
      this.authorization := authorization;
      user := None;
      statusCode := DefaultStatus;
      sent := None;
      nextCalls := 0;
    }

    /** `res.status(r.status).json(r.body)`: writes the response and touches nothing on the request. */
    method Send(r: Reply)
      modifies this`statusCode, this`sent
      ensures statusCode == r.status && sent == Some(r.body)
    {
      statusCode := r.status;
      sent := Some(r.body);
    }

    /** `next()`: hands the request to the next stage of the chain. */
    method Next()
      modifies this`nextCalls
      ensures nextCalls == old(nextCalls) + 1
    {
      nextCalls := nextCalls + 1;
    }
  }
}
