# DevMarket: error classifier and authentication gate

DevMarket is a small marketplace API (users and their products) built with
axum. Two pieces of it make decisions rather than move data, and this project
models both in Dafny and proves what they promise:

- **The failure classifier** (`src/error.rs`). The crate's `Error` enum has
  nine variants. Seven of them wrap an error from another crate (sqlx,
  `std::env`, `std::io`, bcrypt, jsonwebtoken, serde_json, integer
  conversion). `into_response` maps every variant to an HTTP status and a
  fixed message. The model (`Errors`) keeps the wrapped errors as opaque
  types. It proves three things about the map. It is total. It only ever
  answers 400, 403 or 500. It never depends on the wrapped error, even though
  the `Display` text of a database error quotes it.
- **The authentication gate** (`src/ext.rs`). `IsAuth` is the extractor that
  guards protected handlers. It takes the first `Authorization` header,
  converts it to text with `HeaderValue::to_str`, and hands that text
  unchanged to `Clains::from_token`. Any failure gives one fixed 401
  rejection. The model (`Ext`) takes the token parser as a function
  parameter, because its code is not part of this model. It proves that the
  gate admits exactly the requests whose header text the parser accepts, and
  passes on the claims the parser returned. It proves that every failure is
  the same rejection, that a `Bearer ` prefix (section 2.1 of RFC 6750) is
  neither checked nor stripped, and that the state and all other headers are
  ignored.

The framework behaviour that the gate relies on is in `Http`. Status codes
are three-digit values. `HeaderValue::to_str` accepts a value exactly when
every byte is visible ASCII, meaning 32 to 126 or a tab. `HeaderMap::get`
lower-cases its key and returns the first entry with that name. `Wrappers`
holds Rust's `Option` and `Result`.

Two behaviours of the code differ from what the cited standards lead one to
expect, and the model follows the code. Section 15.5.2 of RFC 9110 reserves
401 for requests that lack valid credentials. Yet the classifier answers
token (`JWT`) and hashing (`Bypt`) errors with 500, and `NeverUnauthorized`
proves that it never produces 401 at all. Only the gate's own rejection is a
401. Section 2.1 of RFC 6750 expects the header to read `Bearer <token>`. Yet
the gate passes the whole header text to the parser (`BearerPrefixKept`).

Both source functions are pure, so they are modelled as Dafny functions.
`from_request_parts` borrows `parts` mutably but never writes to it. It is
modelled as a function of `parts`, so the model cannot change `parts` either.

## Model

| member | source | states |
|---|---|---|
| `Errors.IntoResponse` | src/error.rs:40-72 | every variant is handled with no default arm; the status is always 400, 403 or 500; the body is always one of the seven fixed messages |
| `Errors.DatabaseFailures` | src/error.rs:43-46 | `Sql(_)` and `Cn(_)` both give 500 with the database message, whatever they wrap |
| `Errors.IoFailure` | src/error.rs:47-50 | `Io(_)` gives 500 with the I/O message |
| `Errors.AuthenticationFailuresAreServerErrors` | src/error.rs:51-54 | `Bypt(_)` and `JWT(_)` share one response, 500 with "Authentication failed while processing the user"; it is not 401 |
| `Errors.NeverUnauthorized` | src/error.rs:42-68 | no error variant is ever answered with 401 |
| `Errors.OnlyInvalidUserIsForbidden` | src/error.rs:55-58 | the status is 403 if and only if the error is `InvalidUser`, and then the body is the forbidden message |
| `Errors.BadRequests` | src/error.rs:59-67 | the status is 400 if and only if the error is `Json(_)`, `Datatype` or `Conversion(_)` |
| `Errors.MalformedInputResponses` | src/error.rs:59-67 | `Json(_)`, `Datatype` and `Conversion(_)` each give 400 with their own fixed message, whatever they wrap |
| `Errors.ServerOrClientFault` | src/error.rs:42-68 | the status is a 5xx if and only if the error comes from the database, the environment, I/O, bcrypt or JWT; every other error gets a 4xx |
| `Errors.ResponseIgnoresPayload` | src/error.rs:42-70 | two errors of the same variant get identical responses, whatever errors they wrap |
| `Errors.Display` | src/error.rs:10-37 | a database error displays as "Database error: " followed by the wrapped sqlx error's own text; every other variant displays one of eight fixed texts |
| `Errors.DisplayIgnoresSqlxTextElsewhere` | src/error.rs:15-37 | every variant except the database one displays the same text whatever the wrapped error prints |
| `Errors.DatabaseTextNotLeaked` | src/error.rs:12-46 | the display texts of two database errors differ when the wrapped sqlx errors print differently, but their responses are equal |
| `Errors.DatabaseMessageIsNotDisplayed` | src/error.rs:12-46 | the database message is not "Database error: " followed by any text |
| `Errors.BodyIsNeverDisplayText` | src/error.rs:10-70 | for every error, and whatever the wrapped sqlx error prints, the response body is not the error's display text |
| `Errors.MessageIdentifiesArm` | src/error.rs:43-67 | two errors get the same message if and only if the same match arm handles them; equal messages imply equal statuses |
| `Http.ToStr` | src/ext.rs:17 | `to_str` succeeds if and only if every byte is visible ASCII; the text it returns has exactly the header's bytes as its characters |
| `Http.ToStrOfAsciiBytes` | src/ext.rs:17 | reading the bytes of a visible-ASCII text with `to_str` gives that text back |
| `Http.AsciiBytesOfToStr` | src/ext.rs:17 | a value that `to_str` accepts is exactly the bytes of the text it returns |
| `Http.ToLower` | src/ext.rs:16 | the key is lower-cased character by character, only `A`-`Z` change, and a name that is already lower-case is left as it is |
| `Http.Get` | src/ext.rs:16 | `get` finds nothing if and only if no entry has the lower-cased name; otherwise it returns the value of the first such entry |
| `Http.GetIgnoresOtherNames` | src/ext.rs:16 | inserting an entry with a different name at any position does not change what `get` returns |
| `Ext.AuthorizationKey` | src/ext.rs:16 | the key "Authorization" looks up the stored header name "authorization" |
| `Ext.FromRequestParts` | src/ext.rs:15-28 | every failure is the single rejection (401, "You're not allowed to be in here, please login") |
| `Ext.AdmitsExactly` | src/ext.rs:16-19 | the gate yields `IsAuth(c)` if and only if the first `Authorization` header is all visible ASCII and the parser, given that header's text unchanged, returns `c` |
| `Ext.MissingHeaderRejected` | src/ext.rs:16-27 | with no `Authorization` header, the result is the rejection |
| `Ext.UnreadableHeaderRejected` | src/ext.rs:17-27 | with a byte in the header that is not visible ASCII, the result is the rejection, whatever the parser would say |
| `Ext.RefusedTokenRejected` | src/ext.rs:18-27 | when the parser refuses the header text, the result is the rejection |
| `Ext.FailuresIndistinguishable` | src/ext.rs:24-27 | any two failed requests get the same rejection, so a client cannot tell which step failed |
| `Ext.BearerPrefixKept` | src/ext.rs:17-18 | for a header "Bearer t", the gate succeeds with `c` if and only if the parser accepts the whole text "Bearer t" with `c`; the prefix is not stripped |
| `Ext.OnlyAuthorizationMatters` | src/ext.rs:15-16 | two requests whose `Authorization` lookups agree get the same result, whatever their states, methods, targets and other headers |
| `Ext.OtherHeadersIgnored` | src/ext.rs:15-16 | adding a header with any other name, at any position, leaves the gate's decision unchanged |

## Left out

- `Clains::from_token` (the JWT parser and verifier) is not part of this model. The gate takes it as an arbitrary function `fromToken`, so the proofs hold for every parser. Signatures and expiry are not modelled.
- The contents of the wrapped foreign errors (sqlx, `VarError`, `std::io::Error`, bcrypt, jsonwebtoken, serde_json, `TryFromIntError`) are opaque types. The `#[from]` conversions that `thiserror` generates are the datatype constructors. What a wrapped sqlx error prints is a function parameter of `Display`, because sqlx's code is not part of this model.
- The headers that axum's `into_response` adds to a `(status, message)` pair, such as the plain-text content type, are not modelled. A response is its status and body.
- The `async` and `#[async_trait]` machinery of the extractor is left out, because the gate never awaits.
- The SQL CRUD operations in src/products/model.rs and src/user/model.rs are database I/O with no decision logic, so they are left out.
- Password hashing with bcrypt (src/user/model.rs:23) is a foreign cryptographic call, so it is left out.
- The route tables and handlers in src/products/mod.rs and src/user/mod.rs are framework wiring and logging, so they are left out. So are the paging arithmetic and the startup code in src/main.rs (environment, connection pool, TCP bind).
- Http.Get: header-name syntax checks are not modelled. A key that is not a valid header name would make `get` return nothing, but the only key used, "Authorization", is valid.
