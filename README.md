# Request-decision layer of a small user API, in Dafny

This project models the decision logic of `app.js`, a minimal Express service. The service offers
user registration, an email-only login that issues a signed session token, and two routes that
require that token: a user listing and a user deletion. The model covers:

- **The authentication gate** (`verifyToken`). It refuses an absent `Authorization` header, or one
  that does not start with exactly `Bearer ` (case-sensitive, one space), with 403. Otherwise it
  takes `header.split(" ")[1]` as the token and calls the verifier once. Any verifier failure gives
  401. A success sets `req.user` to the returned claims and calls `next()` once. The gate appears
  twice. `Auth.Authenticate` is the decision as a function. `Auth.VerifyToken` is the middleware as
  a method that updates an in-flight request/response object (`Api.Exchange`) and is proved to
  follow that function.
- **The handlers** for `POST /register`, `POST /login`, `GET /users` and `DELETE /users/:id`. They
  are functions from the request body (or path id) and the collaborators' replies to a response and
  a trace of the collaborator calls made. That trace is how "the store is not called" and "the
  signer sees exactly these claims" are stated.
- **The JavaScript semantics** the guards rely on: truthiness (`!x`), `startsWith`, and `split` with
  a one-character separator. `split` is proved against its inverse `join` in both directions.

The collaborators are function parameters with no further assumptions:

- the token verifier: `jwt.verify` with the process-wide secret, returning claims or an error;
- the token signer: `jwt.sign` with the secret and expiry;
- each store query: the MySQL driver's callback, giving an error message or a result.

Two behaviours of `app.js` are kept as written, not corrected:

- The "Admin Only" comment on `DELETE /users/:id` is not enforced. Any verified token may delete.
  `Routes.DeleteIgnoresIdentity` states this.
- Store errors are echoed to the client as `{ error: err.message }` with status 500.

Token extraction uses `split(" ")`, which splits on the single character `" "`, not on whitespace.
So `"Bearer  a"` hands the verifier `""`, and a tab is not a separator; see
`Auth.EmptyTokenExamples`.

## Model

| member | source | states |
|---|---|---|
| `Js.Truthy` | app.js:44 | JavaScript's `!x` on the header (here) and on the body values in the guards at app.js:65 and app.js:82: exactly undefined, null, false, 0 and the empty string are falsy; every array and object is truthy |
| `Js.StartsWith` | app.js:44 | `startsWith(p)` holds exactly when `p` is a prefix of the string, compared character by character and case-sensitively |
| `Js.Field` | app.js:64 | destructuring `const { key } = req.body`, here and at app.js:80, reads the property when present and undefined when it is missing |
| `Js.Split` | app.js:48 | `split` always yields at least one piece; no piece contains the separator; the first piece is the text up to the first separator or the end; a string without the separator splits to itself |
| `Js.JoinSplit` | app.js:48 | joining the pieces of a split with the separator gives back the original string |
| `Js.SplitJoin` | app.js:48 | splitting a join of separator-free pieces gives back exactly those pieces |
| `Js.SplitAfterFirst` | app.js:48 | a separator-free prefix followed by the separator becomes the first piece, and the rest splits independently |
| `Auth.BearerFormat` | app.js:44 | the header passes the format check exactly when it is present and starts with `"Bearer "`; the guard's `!authHeader` adds nothing, since such a header is never empty |
| `Auth.IsBearerToken` | app.js:48 | `t` is the text after the prefix up to the next space or the end of the header, that is, the text between the first and second space |
| `Auth.BearerSplit` | app.js:44-48 | once the `Bearer ` prefix check passes, `split(" ")[1]` exists and is the text between the first and second space |
| `Auth.BearerTokenOfRest` | app.js:48 | the first piece of the text after the prefix, with its end at a space or the end of the header, is the bearer token |
| `Auth.BearerTokenUnique` | app.js:48 | a header has at most one bearer token |
| `Auth.Authenticate` | app.js:42-57 | 403 with the fixed message and no verifier call exactly when the header is absent or lacks the exact prefix; otherwise one verifier call on the bearer token; the request proceeds exactly when the verifier succeeds, carrying its claims; every verifier failure gives 401 with the fixed message |
| `Auth.FailureIsUnauthorized` | app.js:50-56 | any verifier failure on the bearer token gives exactly one verifier call and the fixed 401 |
| `Auth.SuccessProceeds` | app.js:51-53 | a verifier success forwards the request with exactly the verifier's claims and no reply |
| `Auth.RejectionHidesCause` | app.js:54-56 | the gate depends on the verifier only through whether it succeeds and with what claims, never on the kind of failure |
| `Auth.RefusedHeaderExamples` | app.js:43-46 | an absent header, `""`, `"bearer x"`, `"Bearer"` and `"Basic x"` are refused without a verifier call |
| `Auth.TrailingFieldExample` | app.js:48 | `"Bearer a b"` hands the verifier `"a"` |
| `Auth.EmptyTokenExamples` | app.js:48 | `"Bearer "` and `"Bearer  a"` hand the verifier the empty string |
| `Auth.VerifyToken` | app.js:42-57 | on rejection it writes the gate's status and message and leaves `req.user` and `next` alone; on success it sets `req.user` to the claims, calls `next()` once and writes no response |
| `Api.Exchange.Send` | app.js:45 | `res.status(s).json(b)` records the status and body |
| `Api.Exchange.Next` | app.js:53 | `next()` is counted once per call |
| `Routes.Submitted` | app.js:64 | the four registration values read from the body, each undefined when its property is missing |
| `Routes.Complete` | app.js:65 | the guard of `/register` passes exactly when all four submitted values are truthy |
| `Routes.Register` | app.js:63-76 | 400 "All fields are required" and no store call exactly when a field is falsy; otherwise one INSERT of the submitted values unchanged; 500 echoing the driver's message exactly on a store error; 201 with `userId` equal to the insert id exactly on store success |
| `Routes.Login` | app.js:79-96 | 400 "Email is required" and no store call exactly when the email is falsy; otherwise a lookup by that email; 500 echoing the message on a store error; 404 "User not found" exactly on zero rows; 200 "Login successful" exactly on a non-empty result, with a token signed over the first row's id and email |
| `Routes.ListUsers` | app.js:106-109 | one listing query; 200 with the rows unchanged exactly on store success, otherwise 500 echoing the message |
| `Routes.DeleteUser` | app.js:115-119 | one DELETE by the path id; 200 "User deleted successfully" exactly when the store reports no error, whatever was removed; otherwise 500 echoing the message |
| `Routes.Protected` | app.js:99-113 | a route registered behind the gate, as `GET /users` (app.js:99) and `DELETE /users/:id` (app.js:113) are: a refused header gives the 403 with no call at all; when the gate rejects, no handler call happens; when it passes, the reply is the handler's on the attached identity, after the single verifier call |
| `Routes.GetUsers` | app.js:99-110 | 200 exactly when the gate passes and the store succeeds, with the rows; the listing query runs exactly when the gate passes |
| `Routes.DeleteUserRoute` | app.js:113-120 | 200 exactly when the gate passes and the store reports no error; the DELETE runs exactly when the gate passes |
| `Routes.DeleteIgnoresIdentity` | app.js:112-120 | no role check: any two identities the gate lets through get the same delete reply |
| `Routes.NoOpDeleteSucceeds` | app.js:115-119 | a delete that removes no row still answers 200 with the success message |
| `Routes.LoginUsesFirstRow` | app.js:89-92 | login depends only on the first matching row; later rows change nothing |
| `Routes.LoginTokenOpensGate` | app.js:91-94 | if the signer emits no space and the verifier accepts what the signer issues, the login token sent as `Bearer <token>` is the string the gate verifies, and the request proceeds with the first row's claims |
| `Routes.RegisterExamples` | app.js:64-75 | a typical registration gets 201 with the insert id; `department_id: 0` or a missing field gets 400; `department_id: "0"` passes, because a non-empty string is truthy |
| `Routes.Serve` | app.js:99-113 | the Express chain gate-then-handler of both protected routes (app.js:99 and app.js:113) writes exactly the reply `Protected` describes, sets `req.user` to the claims exactly when the gate passes and leaves it alone otherwise, and calls `next()` once exactly when the gate passes |

## Left out

- Express setup: `cors`, `helmet`, `bodyParser` and the rate limiter (app.js:10-25). This is library configuration with no decision logic. Body parsing is taken as given: `req.body` is a JSON object. body-parser 1.x initialises `req.body` to `{}` when there is no JSON body. Under body-parser 2.x it stays undefined, the destructuring at app.js:64 and app.js:80 throws and Express answers 500; that path is not modelled. A JSON array has none of the named keys, so it behaves like `{}`.
- The MySQL connection and the SQL text (app.js:28-39, 69, 86, 100-104, 115). These are network I/O. Only each query's error-or-result reply is modelled, as a parameter. What the rows contain, such as the department join, is the store's business.
- The internals of `jwt.sign` and `jwt.verify`: HMAC, base64url encoding and wall-clock expiry. They are foreign library code, so the signer and verifier are uninterpreted parameters. The round trip "verify(sign(c)) succeeds until expiry", and failure under a different secret, belong to that library. `Routes.LoginTokenOpensGate` takes the round trip as a hypothesis instead of proving it.
- A throwing `jwt.sign` (for example, with no secret configured). It would throw inside the store callback, where nothing catches it. The signer is modelled as total.
- `process.env` reads, `console.log(process.env)` (app.js:12), `db.connect` logging and `app.listen` (app.js:123-125). They are environment access and I/O. The secret and the expiry are fixed inside the verifier and signer parameters.
- Concurrency between requests. Each request is independent and the core has no shared mutable state.
- Express's case-insensitive lookup of the header *name* in `req.header("Authorization")`. The model starts from the header value that lookup returns. Node trims surrounding whitespace from header values first, so a client's `"Bearer "` arrives as `"Bearer"` and is refused with 403; `"Bearer  a"` is unaffected. JavaScript strings are UTF-16 code units, while Dafny strings are sequences of characters. Only the ASCII space and the ASCII prefix matter here.
- The status of a bare `res.json(x)`: a call without a preceding `res.status(...)` keeps Express's default status 200. The model records that status explicitly as 200, since nothing earlier in the chain sets another one.
