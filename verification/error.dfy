/**
  The crate's error type and the classifier that turns every error into the
  HTTP response the client sees (src/error.rs).
*/
module Errors {
  import opened Http

  // The errors of foreign crates that variants wrap. Their contents are not
  // modelled: the classifier never looks inside them.
  type SqlxError
  type VarError
  type IoError
  type BcryptError
  type JwtError
  type SerdeJsonError
  type TryFromIntError

  /** The crate's `Error` enum, one constructor per variant. */
  datatype Error =
    | Sql(sqlx: SqlxError)
    | Cn(env: VarError)
    | Io(io: IoError)
    | Bypt(bcrypt: BcryptError)
    | JWT(jwt: JwtError)
    | InvalidUser
    | Json(json: SerdeJsonError)
    | Datatype
    | Conversion(conversion: TryFromIntError)

  /** The two errors are the same variant, whatever they wrap. */
  predicate SameVariant(a: Error, b: Error) {
    match (a, b)
    case (Sql(_), Sql(_)) => true
    case (Cn(_), Cn(_)) => true
    case (Io(_), Io(_)) => true
    case (Bypt(_), Bypt(_)) => true
    case (JWT(_), JWT(_)) => true
    case (InvalidUser, InvalidUser) => true
    case (Json(_), Json(_)) => true
    case (Datatype, Datatype) => true
    case (Conversion(_), Conversion(_)) => true
    case _ => false
  }

  /**
    The `Display` text that the `#[error(...)]` attributes give each variant.
    `sqlxText` is the `Display` of `sqlx::Error`, whose code is not part of
    this model; the database variant is the only one that interpolates its
    payload.
  */
  function Display(e: Error, sqlxText: SqlxError -> string): (s: string)
    ensures e.Sql? ==> s == "Database error: " + sqlxText(e.sqlx)
    ensures !e.Sql? ==> s in FIXED_DISPLAY_TEXTS
  {
    match e
    case Sql(inner) => "Database error: " + sqlxText(inner)
    case Cn(_) => "DB connection error"
    case Io(_) => "IO error"
    case Bypt(_) => "bcrypt error"
    case JWT(_) => "JWT error"
    case InvalidUser => "Invalid user"
    case Json(_) => "JSON error"
    case Datatype => "Data type error"
    case Conversion(_) => "Conversion error"
  }

  /** The display texts that do not depend on any payload. */
  const FIXED_DISPLAY_TEXTS: set<string> := {
    "DB connection error", "IO error", "bcrypt error", "JWT error", "Invalid user",
    "JSON error", "Data type error", "Conversion error"
  }

  /** Every variant but the database one displays the same text whatever sqlx would print. */
  lemma DisplayIgnoresSqlxTextElsewhere(e: Error, f: SqlxError -> string, g: SqlxError -> string)
    requires !e.Sql?
    ensures Display(e, f) == Display(e, g)
  {
  }

  const DATABASE_MESSAGE := "Something went wrong with the database or its connection"
  const IO_MESSAGE := "I/O error occurred while connecting to the server"
  const AUTHENTICATION_MESSAGE := "Authentication failed while processing the user"
  const FORBIDDEN_MESSAGE := "You are not authorized to access this resource"
  const JSON_MESSAGE := "Invalid JSON format in the request"
  const DATATYPE_MESSAGE := "Expected an executable (.exe) file"
  const CONVERSION_MESSAGE := "Failed to convert number type"

  /** The fixed texts a client can receive as the body of an error response. */
  const MESSAGES: set<string> := {
    DATABASE_MESSAGE, IO_MESSAGE, AUTHENTICATION_MESSAGE, FORBIDDEN_MESSAGE,
    JSON_MESSAGE, DATATYPE_MESSAGE, CONVERSION_MESSAGE
  }

  /** The seven arms of the classifier's `match`; some arms serve two variants. */
  datatype Arm = DatabaseArm | IoArm | AuthenticationArm | InvalidUserArm | JsonArm | DatatypeArm | ConversionArm

  function ArmOf(e: Error): Arm {
    match e
    case Sql(_) | Cn(_) => DatabaseArm
    case Io(_) => IoArm
    case Bypt(_) | JWT(_) => AuthenticationArm
    case InvalidUser => InvalidUserArm
    case Json(_) => JsonArm
    case Datatype => DatatypeArm
    case Conversion(_) => ConversionArm
  }

  /**
    `into_response`: every variant, with no default arm, becomes a status of
    400, 403 or 500 and one of the fixed messages.
  */
  function IntoResponse(e: Error): (r: Response)
    ensures r.status == BAD_REQUEST || r.status == FORBIDDEN || r.status == INTERNAL_SERVER_ERROR
    ensures r.body in MESSAGES
  {
    match e
    case Sql(_) | Cn(_) => Response(INTERNAL_SERVER_ERROR, DATABASE_MESSAGE)
    case Io(_) => Response(INTERNAL_SERVER_ERROR, IO_MESSAGE)
    case Bypt(_) | JWT(_) => Response(INTERNAL_SERVER_ERROR, AUTHENTICATION_MESSAGE)
    case InvalidUser => Response(FORBIDDEN, FORBIDDEN_MESSAGE)
    case Json(_) => Response(BAD_REQUEST, JSON_MESSAGE)
    case Datatype => Response(BAD_REQUEST, DATATYPE_MESSAGE)
    case Conversion(_) => Response(BAD_REQUEST, CONVERSION_MESSAGE)
  }

  /** Query failures and a missing environment variable look the same to the client. */
  lemma DatabaseFailures(s: SqlxError, v: VarError)
    ensures IntoResponse(Sql(s)) == IntoResponse(Cn(v)) == Response(INTERNAL_SERVER_ERROR, DATABASE_MESSAGE)
  {
  }

  lemma IoFailure(io: IoError)
    ensures IntoResponse(Io(io)) == Response(INTERNAL_SERVER_ERROR, IO_MESSAGE)
  {
  }

  /**
    Hashing and token failures share one response, and it is a server error:
    neither is reported as 401 Unauthorized.
  */
  lemma AuthenticationFailuresAreServerErrors(b: BcryptError, j: JwtError)
    ensures IntoResponse(Bypt(b)) == IntoResponse(JWT(j)) == Response(INTERNAL_SERVER_ERROR, AUTHENTICATION_MESSAGE)
    ensures IntoResponse(Bypt(b)).status != UNAUTHORIZED
  {
  }

  /** No error the crate raises is ever answered with 401. */
  lemma NeverUnauthorized(e: Error)
    ensures IntoResponse(e).status != UNAUTHORIZED
  {
  }

  /** 403 is given to `InvalidUser` and to nothing else. */
  lemma OnlyInvalidUserIsForbidden(e: Error)
    ensures IntoResponse(e).status == FORBIDDEN <==> e == InvalidUser
    ensures e == InvalidUser ==> IntoResponse(e).body == FORBIDDEN_MESSAGE
  {
  }

  /** 400 is given exactly to the malformed-input variants. */
  lemma BadRequests(e: Error)
    ensures IntoResponse(e).status == BAD_REQUEST <==> (e.Json? || e.Datatype? || e.Conversion?)
  {
  }

  /** The three malformed-input arms, each with its own message. */
  lemma MalformedInputResponses(j: SerdeJsonError, c: TryFromIntError)
    ensures IntoResponse(Json(j)) == Response(BAD_REQUEST, JSON_MESSAGE)
    ensures IntoResponse(Datatype) == Response(BAD_REQUEST, DATATYPE_MESSAGE)
    ensures IntoResponse(Conversion(c)) == Response(BAD_REQUEST, CONVERSION_MESSAGE)
  {
  }

  /**
    The response blames the server exactly for the failures of the database,
    the environment, I/O, hashing and tokens, and the client for the rest.
  */
  lemma ServerOrClientFault(e: Error)
    ensures IsServerError(IntoResponse(e).status) <==> (e.Sql? || e.Cn? || e.Io? || e.Bypt? || e.JWT?)
    ensures IsClientError(IntoResponse(e).status) <==> !IsServerError(IntoResponse(e).status)
  {
  }

  /** The response depends on the variant alone, never on the error it wraps. */
  lemma ResponseIgnoresPayload(a: Error, b: Error)
    requires SameVariant(a, b)
    ensures IntoResponse(a) == IntoResponse(b)
  {
    match (a, b)
    case (Sql(_), _) =>
    case (Cn(_), _) =>
    case (Io(_), _) =>
    case (Bypt(_), _) =>
    case (JWT(_), _) =>
    case (InvalidUser, _) =>
    case (Json(_), _) =>
    case (Datatype, _) =>
    case (Conversion(_), _) =>
  }

  /**
    The `Display` text of a database error carries the text of the wrapped
    `sqlx::Error`, yet two database errors whose texts differ get the same
    response.
  */
  lemma DatabaseTextNotLeaked(s1: SqlxError, s2: SqlxError, sqlxText: SqlxError -> string)
    requires sqlxText(s1) != sqlxText(s2)
    ensures Display(Sql(s1), sqlxText) != Display(Sql(s2), sqlxText)
    ensures IntoResponse(Sql(s1)) == IntoResponse(Sql(s2))
  {
    var prefix := "Database error: ";
    assert (prefix + sqlxText(s1))[|prefix|..] == sqlxText(s1);
    assert (prefix + sqlxText(s2))[|prefix|..] == sqlxText(s2);
  }

  /** The database message is not the display text of a database error, whatever it wraps. */
  lemma DatabaseMessageIsNotDisplayed(inner: string)
    ensures DATABASE_MESSAGE != "Database error: " + inner
  {
    assert ("Database error: " + inner)[15] == ' ';
    assert DATABASE_MESSAGE[15] == 'w';
  }

  /** The body sent is never the `Display` text of the error, whatever sqlx would print. */
  lemma BodyIsNeverDisplayText(e: Error, sqlxText: SqlxError -> string)
    ensures IntoResponse(e).body != Display(e, sqlxText)
  {
    match e
    case Sql(inner) => DatabaseMessageIsNotDisplayed(sqlxText(inner));
    case Cn(_) =>
    case Io(_) =>
    case Bypt(_) =>
    case JWT(_) =>
    case InvalidUser =>
    case Json(_) =>
    case Datatype =>
    case Conversion(_) =>
  }

  /**
    The seven messages are pairwise distinct: two errors get the same message
    exactly when the same arm handles them, and the message fixes the status.
  */
  lemma MessageIdentifiesArm(a: Error, b: Error)
    ensures IntoResponse(a).body == IntoResponse(b).body <==> ArmOf(a) == ArmOf(b)
    ensures IntoResponse(a).body == IntoResponse(b).body ==> IntoResponse(a).status == IntoResponse(b).status
  {
  }
}
