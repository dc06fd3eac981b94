/** The decision logic of the manual authentication script (`script.js`):
  * the token file it writes, the token state it keeps between requests, the
  * result of one user's run and the selection and summary of `main`.
  *
  * The browser automation, the callback server, the token endpoint and the
  * configuration bridge are inputs: their answers are parameters. */
module AuthScript {
  import opened Common

  /** The token endpoint's answer; fields the server may leave out are
    * optional. */
  datatype TokenData = TokenData(expiresIn: int, tokenType: string, scope: Option<string>,
                                 refreshToken: Option<string>, accessToken: Option<string>,
                                 idToken: Option<string>)

  datatype SavedToken = SavedToken(expiresIn: int, tokenType: string, scope: string,
                                   refreshToken: Option<string>, accessToken: Option<string>,
                                   idToken: string, expiresAt: int)

  /** The JSON document of `schwab_token_<user>.json`. */
  datatype TokenFile = TokenFile(creationTimestamp: int, token: SavedToken)

  /** `value || fallback` on a string that may be missing. */
  function OrDefault(value: Option<string>, fallback: string): (r: string)
    ensures value.Some? && value.value != "" ==> r == value.value
    ensures value.None? || value.value == "" ==> r == fallback
  {
    if value.Some? && value.value != "" then value.value else fallback
  }

  /** `saveTokensToFile`; the two readings of the clock in milliseconds are
    * `createdMs` and `expiryMs`, as the source reads it twice. */
  function SavedTokens(data: TokenData, createdMs: int, expiryMs: int): (f: TokenFile)
    ensures f.token.scope != "" && f.token.scope == OrDefault(data.scope, "api")
    ensures f.token.idToken == OrDefault(data.idToken, "")
    ensures f.token.refreshToken == data.refreshToken && f.token.accessToken == data.accessToken
    ensures f.token.expiresIn == data.expiresIn && f.token.tokenType == data.tokenType
    ensures f.creationTimestamp * 1000 <= createdMs < f.creationTimestamp * 1000 + 1000
    ensures (f.token.expiresAt - data.expiresIn) * 1000 <= expiryMs < (f.token.expiresAt - data.expiresIn) * 1000 + 1000
  {
    TokenFile(createdMs / 1000,
              SavedToken(data.expiresIn, data.tokenType, OrDefault(data.scope, "api"), data.refreshToken,
                         data.accessToken, OrDefault(data.idToken, ""), expiryMs / 1000 + data.expiresIn))
  }

  /** The expiry is the lifetime after the creation time when both clock
    * readings fall in the same second, and never earlier when the clock
    * does not go back between them. */
  lemma ExpiryFollowsCreation(data: TokenData, createdMs: int, expiryMs: int)
    ensures var f := SavedTokens(data, createdMs, expiryMs);
            (createdMs <= expiryMs ==> f.token.expiresAt >= f.creationTimestamp + data.expiresIn)
            && (createdMs / 1000 == expiryMs / 1000 ==> f.token.expiresAt == f.creationTimestamp + data.expiresIn)
  {
    var f := SavedTokens(data, createdMs, expiryMs);
    if createdMs <= expiryMs {
      assert f.creationTimestamp * 1000 <= createdMs <= expiryMs < (f.token.expiresAt - data.expiresIn) * 1000 + 1000;
    }
  }

  /** A value interpolated into a template literal. */
  function Interpolated(value: Option<string>): string
  {
    if value.Some? then value.value else "undefined"
  }

  /** The module-level tokens of the script, overwritten by every answer of
    * the token endpoint. */
  class AuthSession {
    var authorizationCode: Option<string>
    var accessToken: Option<string>
    var refreshToken: Option<string>

    constructor ()
      ensures authorizationCode == None && accessToken == None && refreshToken == None
    {
      authorizationCode, accessToken, refreshToken := None, None, None;
    }

    /** The callback's `code` parameter; a missing one is answered with 400
      * and no exchange. The result is whether the exchange goes ahead. */
    method ReceiveCallback(code: Option<string>) returns (exchange: bool)
      modifies this
      ensures authorizationCode == code && exchange == (code.Some? && code.value != "")
      ensures accessToken == old(accessToken) && refreshToken == old(refreshToken)
    {
      authorizationCode := code;
      exchange := code.Some? && code.value != "";
    }

    /** The body of the authorization-code exchange. */
    method ExchangeBody(redirectUri: string) returns (body: string)
      ensures body == "grant_type=authorization_code&code=" + Interpolated(authorizationCode) + "&redirect_uri=" + redirectUri
    {
      body := "grant_type=authorization_code&code=" + Interpolated(authorizationCode) + "&redirect_uri=" + redirectUri;
    }

    /** An answer of the token endpoint: the tokens are kept and written to
      * the user's file. */
    method TokensReceived(data: TokenData, createdMs: int, expiryMs: int) returns (saved: TokenFile)
      modifies this
      ensures accessToken == data.accessToken && refreshToken == data.refreshToken
      ensures authorizationCode == old(authorizationCode)
      ensures saved == SavedTokens(data, createdMs, expiryMs)
    {
      accessToken := data.accessToken;
      refreshToken := data.refreshToken;
      saved := SavedTokens(data, createdMs, expiryMs);
    }

    /** The body of the refresh request: the refresh token of the last answer. */
    method RefreshBody() returns (body: string)
      ensures body == "grant_type=refresh_token&refresh_token=" + Interpolated(refreshToken)
    {
      body := "grant_type=refresh_token&refresh_token=" + Interpolated(refreshToken);
    }
  }

  // ---------------------------------------------------------------------------
  // processUser

  /** How one user's run went:
    * - whether getting the configuration or the browser login threw;
    * - the callback the server got: none before the 300 s timeout, or the
    *   request with its `code` parameter, which may be missing;
    * - the exchange's answer, `None` when `getAuthToken` threw;
    * - whether the account and refresh calls that follow threw. */
  datatype UserRun = UserRun(setupThrew: bool, callback: Option<Option<string>>, tokens: Option<TokenData>,
                             followUpThrew: bool)

  /** `processUser`'s answer, or a wait on `serverPromise` that never ends. */
  datatype UserResult = Finished(ok: bool) | Hangs

  /** A truthy `authorizationCode`. */
  predicate HasCode(code: Option<string>)
  {
    code.Some? && code.value != ""
  }

  /** A run whose callback brought a code. */
  predicate Received(run: UserRun)
  {
    !run.setupThrew && run.callback.Some? && HasCode(run.callback.value)
  }

  /** A run whose callback never came. */
  predicate Silent(run: UserRun)
  {
    !run.setupThrew && run.callback.None?
  }

  /** One user's run, given the module-level `authorizationCode` left by the
    * users before: the result and the code it leaves. The timeout only
    * resolves while no code is stored, so a user whose callback never comes
    * waits for ever once an earlier user received one. */
  function ProcessUser(run: UserRun, code: Option<string>): (r: (UserResult, Option<string>))
    ensures r.0.Hangs? <==> Silent(run) && HasCode(code)
    ensures r.0 == Finished(true) <==> Received(run) && run.tokens.Some? && !run.followUpThrew
    ensures r.1 == if !run.setupThrew && run.callback.Some? then run.callback.value else code
  {
    if run.setupThrew then (Finished(false), code)
    else if run.callback.None? then (if HasCode(code) then Hangs else Finished(false), code)
    else
      var c := run.callback.value;
      if !HasCode(c) then (Finished(false), c)
      else (Finished(run.tokens.Some? && !run.followUpThrew), c)
  }

  /** `main`'s loop over the users from a fresh process: the results so
    * far, the stored code, and whether the loop hangs. */
  function RunUsers(users: seq<string>, runs: string -> UserRun): (map<string, bool>, Option<string>, bool)
  {
    if users == [] then (map[], None, false)
    else
      var prev := RunUsers(users[..|users| - 1], runs);
      var id := users[|users| - 1];
      if prev.2 then prev
      else
        var step := ProcessUser(runs(id), prev.1);
        if step.0.Hangs? then (prev.0, prev.1, true)
        else (prev.0[id := step.0.ok], step.1, false)
  }

  /** Once the loop hangs, the users after it are never reached. */
  lemma {:induction false} HangIsFinal(users: seq<string>, runs: string -> UserRun, i: nat)
    requires i <= |users| && RunUsers(users[..i], runs).2
    ensures RunUsers(users, runs).2
    decreases |users| - i
  {
    if i < |users| {
      assert users[..i + 1][..i] == users[..i];
      HangIsFinal(users, runs, i + 1);
    } else {
      assert users[..i] == users;
    }
  }

  /** A stored code always came from some user's callback. */
  lemma {:induction false} CodeFromCallback(users: seq<string>, runs: string -> UserRun)
    ensures HasCode(RunUsers(users, runs).1) ==> exists j :: 0 <= j < |users| && Received(runs(users[j]))
  {
    if users != [] {
      var init := users[..|users| - 1];
      CodeFromCallback(init, runs);
      if HasCode(RunUsers(users, runs).1) {
        var prev := RunUsers(init, runs);
        var id := users[|users| - 1];
        if !prev.2 && !ProcessUser(runs(id), prev.1).0.Hangs? && ProcessUser(runs(id), prev.1).1 != prev.1 {
          assert Received(runs(users[|users| - 1]));
        } else {
          var j :| 0 <= j < |init| && Received(runs(init[j]));
          assert users[j] == init[j];
        }
      }
    }
  }

  /** The loop hangs only at a user whose callback never came, after an
    * earlier user received a code. */
  lemma {:induction false} HangNeedsEarlierCode(users: seq<string>, runs: string -> UserRun)
    ensures RunUsers(users, runs).2 ==>
              exists j, k :: 0 <= j < k < |users| && Received(runs(users[j])) && Silent(runs(users[k]))
  {
    if users != [] {
      var init := users[..|users| - 1];
      HangNeedsEarlierCode(init, runs);
      var prev := RunUsers(init, runs);
      if RunUsers(users, runs).2 {
        if prev.2 {
          var j, k :| 0 <= j < k < |init| && Received(runs(init[j])) && Silent(runs(init[k]));
          assert users[j] == init[j] && users[k] == init[k];
        } else {
          CodeFromCallback(init, runs);
          var j :| 0 <= j < |init| && Received(runs(init[j]));
          assert users[j] == init[j];
          assert Silent(runs(users[|users| - 1]));
        }
      }
    }
  }

  /** Without a hang every processed user has a result, and only they do. */
  lemma {:induction false} RunUsersKeys(users: seq<string>, runs: string -> UserRun)
    ensures !RunUsers(users, runs).2 ==> forall id :: id in RunUsers(users, runs).0 <==> id in users
  {
    if users != [] {
      var init := users[..|users| - 1];
      RunUsersKeys(init, runs);
      assert users == init + [users[|users| - 1]];
    }
  }

  /** A user who received a code and a later one whose callback never comes:
    * the second waits for ever. */
  lemma StaleCodeHangs()
    ensures var runs := (id: string) => if id == "tucan" then UserRun(false, Some(Some("code")), None, false)
                                        else UserRun(false, None, None, false);
            RunUsers(["tucan", "guinea"], runs).2
  {
    var runs := (id: string) => if id == "tucan" then UserRun(false, Some(Some("code")), None, false)
                                else UserRun(false, None, None, false);
    assert ["tucan", "guinea"][..1] == ["tucan"];
    assert ["tucan"][..0] == [];
    assert RunUsers(["tucan"], runs) == (map["tucan" := false], Some("code"), false);
  }

  // ---------------------------------------------------------------------------
  // main

  /** `userIds.filter(id => requested.includes(id))`. */
  function Requested(userIds: seq<string>, requested: seq<string>): (r: seq<string>)
    ensures forall id :: id in r <==> id in userIds && id in requested
    ensures |r| <= |userIds|
  {
    if userIds == [] then []
    else
      var init := userIds[..|userIds| - 1];
      var last := userIds[|userIds| - 1];
      assert userIds == init + [last];
      Requested(init, requested) + (if last in requested then [last] else [])
  }

  predicate Distinct(ids: seq<string>)
  {
    forall i, j :: 0 <= i < j < |ids| ==> ids[i] != ids[j]
  }

  /** The filter keeps the configured order, so distinct ids stay distinct. */
  lemma {:induction false} RequestedDistinct(userIds: seq<string>, requested: seq<string>)
    requires Distinct(userIds)
    ensures Distinct(Requested(userIds, requested))
  {
    if userIds != [] {
      var init := userIds[..|userIds| - 1];
      var last := userIds[|userIds| - 1];
      RequestedDistinct(init, requested);
      assert last !in init;
      assert last !in Requested(init, requested);
    }
  }

  /** The users `main` processes: all configured ones, or with command-line
    * arguments the configured ones among them. */
  function UsersToProcess(userIds: seq<string>, argv: seq<string>): seq<string>
  {
    if |argv| >= 3 then Requested(userIds, argv[2..]) else userIds
  }

  datatype MainOutcome =
    | NoUsers
    | NoMatchingUsers
    | Hung
    | Summary(results: map<string, bool>, successCount: nat, processed: nat, emailSent: bool)

  /** `main`, with one module-level session for all users; `runs` is how
    * each user's run goes. */
  method RunScript(userIds: seq<string>, argv: seq<string>, runs: string -> UserRun) returns (r: MainOutcome)
    ensures userIds == [] <==> r == NoUsers
    ensures r == NoMatchingUsers <==> userIds != [] && UsersToProcess(userIds, argv) == []
    ensures r == Hung <==> userIds != [] && UsersToProcess(userIds, argv) != []
                           && RunUsers(UsersToProcess(userIds, argv), runs).2
    ensures r.Summary? ==>
              var users := UsersToProcess(userIds, argv);
              r.processed == |users|
              && r.results == RunUsers(users, runs).0
              && r.successCount == |set id | id in r.results && r.results[id]|
              && (r.emailSent <==> r.successCount != |users|)
  {
    if |userIds| == 0 {
      return NoUsers;
    }
    var users := userIds;
    if |argv| >= 3 {
      users := Requested(userIds, argv[2..]);
    }
    if |users| == 0 {
      return NoMatchingUsers;
    }
    var results, hung := ProcessUsers(users, runs);
    if hung {
      return Hung;
    }
    var successCount := |set id | id in results && results[id]|;
    return Summary(results, successCount, |users|, successCount != |users|);
  }

  /** `main`'s loop: the users in order, with one module-level session. */
  method ProcessUsers(users: seq<string>, runs: string -> UserRun) returns (results: map<string, bool>, hung: bool)
    ensures hung == RunUsers(users, runs).2
    ensures !hung ==> results == RunUsers(users, runs).0
  {
    var session := new AuthSession();
    results := map[];
    for i := 0 to |users|
      invariant (results, session.authorizationCode, false) == RunUsers(users[..i], runs)
    {
      assert users[..i + 1][..i] == users[..i];
      var run := runs(users[i]);
      var ok := false;
      if !run.setupThrew {
        if run.callback.None? {
          if HasCode(session.authorizationCode) {
            HangIsFinal(users, runs, i + 1);
            return results, true;
          }
        } else {
          var exchange := session.ReceiveCallback(run.callback.value);
          ok := exchange && run.tokens.Some? && !run.followUpThrew;
        }
      }
      results := results[users[i] := ok];
    }
    assert users[..|users|] == users;
    hung := false;
  }

  /** With distinct configured ids and no hang, every processed user has a
    * result and the notification goes out exactly when one of them failed. */
  lemma EmailIffFailure(userIds: seq<string>, argv: seq<string>, runs: string -> UserRun)
    requires Distinct(userIds)
    ensures var users := UsersToProcess(userIds, argv);
            var results := RunUsers(users, runs).0;
            !RunUsers(users, runs).2 ==>
              (forall id :: id in results <==> id in users)
              && (|set id | id in results && results[id]| != |users| <==> exists id :: id in results && !results[id])
  {
    var users := UsersToProcess(userIds, argv);
    var results := RunUsers(users, runs).0;
    if |argv| >= 3 {
      RequestedDistinct(userIds, argv[2..]);
    }
    RunUsersKeys(users, runs);
    if !RunUsers(users, runs).2 {
      DistinctCardinality(users);
      SuccessesShort(users, results);
    }
  }

  /** Fewer successes than users exactly when some user failed. */
  lemma SuccessesShort(users: seq<string>, results: map<string, bool>)
    requires forall id :: id in results <==> id in users
    requires |set id | id in users| == |users|
    ensures |set id | id in results && results[id]| != |users| <==> exists id :: id in results && !results[id]
  {
    var all := set id | id in users;
    var good := set id | id in results && results[id];
    assert good <= all;
    if exists id :: id in results && !results[id] {
      var bad :| bad in results && !results[bad];
      assert bad in all - good;
      assert good + (all - good) == all;
      assert |good| < |all|;
    } else {
      assert forall id :: id in all ==> id in good;
      assert good == all;
    }
  }

  lemma {:induction false} DistinctCardinality(ids: seq<string>)
    requires Distinct(ids)
    ensures |set id | id in ids| == |ids|
  {
    if ids != [] {
      var init := ids[..|ids| - 1];
      var last := ids[|ids| - 1];
      DistinctCardinality(init);
      assert last !in init;
      assert (set id | id in ids) == (set id | id in init) + {last};
    }
  }
}
