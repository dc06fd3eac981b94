/** The token refresh script (`refreshToken.js`): reading the stored refresh
  * token, the refresh request built from it, saving the answer and the
  * handling of a failed refresh.
  *
  * The file system, the configuration bridge and the token endpoint are
  * inputs: the file's state and the endpoint's answer are parameters. */
module RefreshToken {
  import opened Common
  import AuthScript

  /** The `token` object as read back from a token file. */
  datatype StoredToken = StoredToken(refreshToken: Option<string>)

  /** The token file: missing, not JSON, or a document with or without a
    * `token` object. */
  datatype FileState = NoFile | NotJson(error: string) | Document(token: Option<StoredToken>)

  /** A value, or the message of the error thrown. */
  datatype Outcome<T> = Ok(value: T) | Thrown(message: string)

  function NotFoundMessage(userId: string): string
  {
    "Token file not found for user " + userId + ". Run manual auth first."
  }

  function InvalidFormatMessage(userId: string): string
  {
    "Invalid token file format for user " + userId + "."
  }

  /** `getRefreshTokenFromFile`. */
  function RefreshTokenFromFile(userId: string, file: FileState): (r: Outcome<string>)
    ensures file == NoFile ==> r == Thrown(NotFoundMessage(userId))
    ensures file.NotJson? ==> r == Thrown(file.error)
    ensures file.Document? && (file.token.None? || OrEmpty(file.token.value.refreshToken) == "") ==>
              r == Thrown(InvalidFormatMessage(userId))
    ensures r.Ok? <==> file.Document? && file.token.Some? && OrEmpty(file.token.value.refreshToken) != ""
    ensures r.Ok? ==> Some(r.value) == file.token.value.refreshToken
  {
    match file
    case NoFile => Thrown(NotFoundMessage(userId))
    case NotJson(error) => Thrown(error)
    case Document(token) =>
      if token.None? || token.value.refreshToken.None? || token.value.refreshToken.value == "" then
        Thrown(InvalidFormatMessage(userId))
      else Ok(token.value.refreshToken.value)
  }

  function OrEmpty(s: Option<string>): string
  {
    if s.Some? then s.value else ""
  }

  /** What a saved token file reads back as. */
  function ReadBack(f: AuthScript.TokenFile): FileState
  {
    Document(Some(StoredToken(f.token.refreshToken)))
  }

  /** A file written from an answer carrying a refresh token gives that token
    * back; one written from an answer without it is rejected. */
  lemma SavedTokenReadsBack(userId: string, data: AuthScript.TokenData, createdMs: int, expiryMs: int)
    ensures var file := ReadBack(AuthScript.SavedTokens(data, createdMs, expiryMs));
            (data.refreshToken.Some? && data.refreshToken.value != "" ==>
               RefreshTokenFromFile(userId, file) == Ok(data.refreshToken.value))
            && (data.refreshToken.None? || data.refreshToken.value == "" ==>
               RefreshTokenFromFile(userId, file) == Thrown(InvalidFormatMessage(userId)))
  {
  }

  /** The endpoint's answer to the refresh request: the token data, or the
    * error axios throws, with the JSON of its response body when the server
    * answered (`error.response.data`) and its own message (for an HTTP error,
    * "Request failed with status code ..."). */
  datatype RefreshAnswer = Refreshed(data: AuthScript.TokenData) | RefreshFailed(responseJson: Option<string>, message: string)

  /** The `errorMsg` the failure is logged and tested with: the response body
    * when there is one, otherwise the error's message. */
  function FailureDescription(answer: RefreshAnswer): string
    requires answer.RefreshFailed?
  {
    if answer.responseJson.Some? then answer.responseJson.value else answer.message
  }

  /** What one refresh does: the request body sent (none when the stored
    * token could not be read), the file written, whether the expiry warning
    * was logged, and the result or the error rethrown. */
  datatype RefreshRun = RefreshRun(requestBody: Option<string>, saved: Option<AuthScript.TokenFile>,
                                   warned: bool, result: Outcome<AuthScript.TokenData>)

  const SubstringOfUndefined := "Cannot read properties of undefined (reading 'substring')"

  /** `refreshAuthToken`. */
  function RefreshAuthToken(userId: string, file: FileState, answer: RefreshAnswer, createdMs: int, expiryMs: int): (run: RefreshRun)
    ensures RefreshTokenFromFile(userId, file).Thrown? ==>
              run == RefreshRun(None, None, false, Thrown(RefreshTokenFromFile(userId, file).message))
    ensures RefreshTokenFromFile(userId, file).Ok? ==>
              run.requestBody == Some("grant_type=refresh_token&refresh_token=" + RefreshTokenFromFile(userId, file).value)
    ensures answer.RefreshFailed? ==> run.saved.None? && run.result.Thrown?
    ensures answer.RefreshFailed? && RefreshTokenFromFile(userId, file).Ok? ==> run.result == Thrown(answer.message)
    ensures run.warned ==> answer.RefreshFailed? && Contains(FailureDescription(answer), "invalid_grant")
    ensures run.result.Ok? ==> answer.Refreshed? && run.result.value == answer.data
                               && run.saved == Some(AuthScript.SavedTokens(answer.data, createdMs, expiryMs))
    ensures answer.Refreshed? && RefreshTokenFromFile(userId, file).Ok? ==>
              run.saved == Some(AuthScript.SavedTokens(answer.data, createdMs, expiryMs)) && !run.warned
              && run.result == (if answer.data.accessToken.Some? then Ok(answer.data) else Thrown(SubstringOfUndefined))
  {
    match RefreshTokenFromFile(userId, file)
    case Thrown(message) => RefreshRun(None, None, false, Thrown(message))
    case Ok(oldToken) =>
      var body := Some("grant_type=refresh_token&refresh_token=" + oldToken);
      match answer
      case RefreshFailed(_, message) =>
        RefreshRun(body, None, HasSubstring(FailureDescription(answer), "invalid_grant"), Thrown(message))
      case Refreshed(data) =>
        var saved := Some(AuthScript.SavedTokens(data, createdMs, expiryMs));
        if data.accessToken.None? then
          // the success log reads `access_token.substring` after the file is written
          RefreshRun(body, saved, false, Thrown(SubstringOfUndefined))
        else RefreshRun(body, saved, false, Ok(data))
  }

  /** A failed refresh always rethrows the original error, with the warning
    * exactly when the logged description mentions `invalid_grant`; a refresh that returns has sent the
    * stored token and carries an access token. */
  lemma RefreshFailureIsRethrown(userId: string, file: FileState, answer: RefreshAnswer, createdMs: int, expiryMs: int)
    ensures var run := RefreshAuthToken(userId, file, answer, createdMs, expiryMs);
            (answer.RefreshFailed? && RefreshTokenFromFile(userId, file).Ok? ==>
               run.result == Thrown(answer.message)
               && (run.warned <==> Contains(FailureDescription(answer), "invalid_grant")))
            && (run.result.Ok? ==>
                  RefreshTokenFromFile(userId, file).Ok?
                  && run.requestBody == Some("grant_type=refresh_token&refresh_token=" + RefreshTokenFromFile(userId, file).value)
                  && run.result.value.accessToken.Some?)
  {
  }

  /** An HTTP error whose body reports `invalid_grant` logs the warning from
    * the body, but the error rethrown carries axios's own message. */
  lemma HttpErrorRethrowsAxiosMessage(userId: string, oldToken: string, createdMs: int, expiryMs: int)
    requires oldToken != ""
    ensures var answer := RefreshFailed(Some("{\"error\":\"invalid_grant\"}"), "Request failed with status code 400");
            var run := RefreshAuthToken(userId, Document(Some(StoredToken(Some(oldToken)))), answer, createdMs, expiryMs);
            run.warned && run.result == Thrown("Request failed with status code 400")
  {
    var description := "{\"error\":\"invalid_grant\"}";
    assert OccursAt(description, "invalid_grant", 10);
  }

  /** Refreshing from a file the script itself wrote sends the refresh token
    * the previous answer carried. */
  lemma RefreshSendsSavedToken(userId: string, previous: AuthScript.TokenData, createdMs: int, expiryMs: int,
                               answer: RefreshAnswer, nowMs: int, laterMs: int)
    requires previous.refreshToken.Some? && previous.refreshToken.value != ""
    ensures RefreshAuthToken(userId, ReadBack(AuthScript.SavedTokens(previous, createdMs, expiryMs)), answer, nowMs, laterMs).requestBody
            == Some("grant_type=refresh_token&refresh_token=" + previous.refreshToken.value)
  {
    SavedTokenReadsBack(userId, previous, createdMs, expiryMs);
  }

  /** After a successful refresh, the file it wrote gives the next refresh the
    * new refresh token. */
  lemma RefreshedFileReadsBack(userId: string, file: FileState, answer: RefreshAnswer, createdMs: int, expiryMs: int)
    requires answer.Refreshed? && RefreshTokenFromFile(userId, file).Ok?
    requires answer.data.refreshToken.Some? && answer.data.refreshToken.value != ""
    ensures var run := RefreshAuthToken(userId, file, answer, createdMs, expiryMs);
            run.saved.Some? && RefreshTokenFromFile(userId, ReadBack(run.saved.value)) == Ok(answer.data.refreshToken.value)
  {
    SavedTokenReadsBack(userId, answer.data, createdMs, expiryMs);
  }
}
