/**
 * Plex account management (backend/handlers/plex_accounts.go): which stored
 * accounts a login may see and manage, the defaults of a new account, the
 * changes made when a token arrives or the account is disconnected, and the
 * query parsing and item shaping of the watch-history endpoint. Settings
 * storage, the login-account service and the Plex API are inputs.
 */
module PlexAccounts {
  import opened Wrappers
  import opened Strs

  /** `config.PlexAccount`. */
  datatype PlexAccount = PlexAccount(
    id: string,
    name: string,
    username: string,
    userID: int,
    authToken: string,
    ownerAccountID: string)

  /** The admin session and the login account it names. */
  datatype Session = Session(accountID: string)
  datatype LoginAccount = LoginAccount(isMaster: bool)

  /** `PlexAccountResponse`. */
  datatype AccountResponse = AccountResponse(id: string, name: string, username: string, connected: bool)

  /** An error answer: status code and message. */
  datatype HttpError = HttpError(status: int, message: string)

  const DefaultAccountName := "Plex Account"

  /** The response for one account: connected exactly when it holds a token. */
  function ResponseFor(acc: PlexAccount): (r: AccountResponse)
    ensures r.connected <==> acc.authToken != ""
    ensures r.id == acc.id && r.name == acc.name && r.username == acc.username
  {
    AccountResponse(acc.id, acc.name, acc.username, acc.authToken != "")
  }

  /** Who is asking: whether the login is a master account, and the
      session's account ID ("" without a session). */
  function Viewer(session: Option<Session>, lookup: string -> Option<LoginAccount>): (bool, string)
  {
    match session
    case None => (false, "")
    case Some(s) => (lookup(s.accountID).Some? && lookup(s.accountID).value.isMaster, s.accountID)
  }

  /** The accounts a viewer sees, in settings order. */
  function Visible(accounts: seq<PlexAccount>, isMaster: bool, sessionAccountID: string): seq<AccountResponse>
  {
    if accounts == [] then []
    else
      var init := Visible(accounts[..|accounts| - 1], isMaster, sessionAccountID);
      var acc := accounts[|accounts| - 1];
      if isMaster || acc.ownerAccountID == sessionAccountID then init + [ResponseFor(acc)] else init
  }

  /** `ListAccounts`: the settings load (its failure answers 500), then the
      loop over the stored accounts. */
  method ListAccounts(load: Result<seq<PlexAccount>, ()>, session: Option<Session>, lookup: string -> Option<LoginAccount>)
    returns (out: Result<seq<AccountResponse>, HttpError>)
    ensures load.Err? ==> out == Err(HttpError(500, "Failed to load settings"))
    ensures load.Ok? ==> out == Ok(Visible(load.value, Viewer(session, lookup).0, Viewer(session, lookup).1))
  {
    if load.Err? {
      return Err(HttpError(500, "Failed to load settings"));
    }
    var accounts := load.value;
    var isMaster := false;
    var sessionAccountID := "";
    if session.Some? {
      sessionAccountID := session.value.accountID;
      var login := lookup(session.value.accountID);
      if login.Some? {
        isMaster := login.value.isMaster;
      }
    }
    var visible: seq<AccountResponse> := [];
    var i := 0;
    while i < |accounts|
      invariant 0 <= i <= |accounts|
      invariant visible == Visible(accounts[..i], isMaster, sessionAccountID)
    {
      var acc := accounts[i];
      assert accounts[..i + 1][..i] == accounts[..i];
      if isMaster || acc.ownerAccountID == sessionAccountID {
        visible := visible + [AccountResponse(acc.id, acc.name, acc.username, acc.authToken != "")];
      }
      i := i + 1;
    }
    assert accounts[..i] == accounts;
    return Ok(visible);
  }

  /** A master sees every account, in order. */
  lemma {:induction false} MasterSeesAll(accounts: seq<PlexAccount>, sessionAccountID: string)
    ensures |Visible(accounts, true, sessionAccountID)| == |accounts|
    ensures forall i :: 0 <= i < |accounts| ==> Visible(accounts, true, sessionAccountID)[i] == ResponseFor(accounts[i])
  {
    if accounts != [] {
      var init := accounts[..|accounts| - 1];
      MasterSeesAll(init, sessionAccountID);
      assert forall i :: 0 <= i < |init| ==> init[i] == accounts[i];
    }
  }

  /** Any other viewer sees only accounts it owns, and every one of them. */
  lemma {:induction false} OthersSeeOwnAccounts(accounts: seq<PlexAccount>, sessionAccountID: string)
    ensures forall r :: r in Visible(accounts, false, sessionAccountID) ==>
      exists i :: 0 <= i < |accounts| && accounts[i].ownerAccountID == sessionAccountID && r == ResponseFor(accounts[i])
    ensures forall i :: 0 <= i < |accounts| && accounts[i].ownerAccountID == sessionAccountID ==>
      ResponseFor(accounts[i]) in Visible(accounts, false, sessionAccountID)
  {
    if accounts != [] {
      var init := accounts[..|accounts| - 1];
      OthersSeeOwnAccounts(init, sessionAccountID);
      assert forall i :: 0 <= i < |init| ==> init[i] == accounts[i];
      forall r | r in Visible(accounts, false, sessionAccountID)
        ensures exists i :: 0 <= i < |accounts| && accounts[i].ownerAccountID == sessionAccountID && r == ResponseFor(accounts[i])
      {
        if r in Visible(init, false, sessionAccountID) {
          var i :| 0 <= i < |init| && init[i].ownerAccountID == sessionAccountID && r == ResponseFor(init[i]);
          assert accounts[i] == init[i];
        }
      }
    }
  }

  /** Without a session, only accounts with an empty owner are listed. */
  lemma NoSessionSeesUnowned(accounts: seq<PlexAccount>, lookup: string -> Option<LoginAccount>)
    ensures Viewer(None, lookup) == (false, "")
    ensures forall r :: r in Visible(accounts, false, "") ==>
      exists i :: 0 <= i < |accounts| && accounts[i].ownerAccountID == "" && r == ResponseFor(accounts[i])
  {
    OthersSeeOwnAccounts(accounts, "");
  }

  // ---------------------------------------------------------------------------
  // CreateAccount.
  // ---------------------------------------------------------------------------

  /** The stored name of a new account. */
  function AccountName(requested: string): (name: string)
    ensures IsBlank(requested) ==> name == DefaultAccountName
    ensures !IsBlank(requested) ==> name == Trim(requested)
    ensures name != ""
  {
    var name := Trim(requested);
    if name == "" then DefaultAccountName else name
  }

  /** The settings saved by `CreateAccount` and its answer. */
  datatype Created = Created(saved: seq<PlexAccount>, response: AccountResponse)

  /** `CreateAccount`, for the decoded body's name (`None`: the body did not
      decode), the loaded accounts, the drawn ID and whether saving
      succeeded. */
  function CreateAccount(session: Option<Session>, body: Option<string>, load: Result<seq<PlexAccount>, ()>,
                         newID: string, saved: bool): (r: Result<Created, HttpError>)
    ensures session.None? ==> r == Err(HttpError(401, "Unauthorized"))
    ensures r.Ok? ==> session.Some? && body.Some? && load.Ok? && saved
    ensures r.Ok? ==>
      var acc := PlexAccount(newID, AccountName(body.value), "", 0, "", session.value.accountID);
      r.value.saved == load.value + [acc] && r.value.response == AccountResponse(newID, acc.name, "", false)
    ensures session.Some? && body.Some? && load.Ok? && !saved ==> r.Err? && r.error.status == 500
  {
    if session.None? then Err(HttpError(401, "Unauthorized"))
    else if body.None? then Err(HttpError(400, "Invalid request body"))
    else if load.Err? then Err(HttpError(500, "Failed to load settings"))
    else
      var acc := PlexAccount(newID, AccountName(body.value), "", 0, "", session.value.accountID);
      if !saved then Err(HttpError(500, "Failed to save settings"))
      else Ok(Created(load.value + [acc], AccountResponse(acc.id, acc.name, "", false)))
  }

  /** A created account is appended: the ones before it are untouched, and
      the creator owns it. */
  lemma CreateAccountAppends(session: Option<Session>, body: Option<string>, load: Result<seq<PlexAccount>, ()>,
                             newID: string, saved: bool)
    requires CreateAccount(session, body, load, newID, saved).Ok?
    ensures var out := CreateAccount(session, body, load, newID, saved).value.saved;
      |out| == |load.value| + 1 && out[..|load.value|] == load.value
      && out[|load.value|].ownerAccountID == session.value.accountID
      && out[|load.value|].authToken == ""
  {
    var out := CreateAccount(session, body, load, newID, saved).value.saved;
    assert out[..|load.value|] == load.value;
  }

  // ---------------------------------------------------------------------------
  // The per-account operations.
  // ---------------------------------------------------------------------------

  /** `settings.Plex.GetAccountByID`: the first account with that ID. */
  function AccountByID(accounts: seq<PlexAccount>, id: string): (r: Option<nat>)
    ensures r.Some? ==> (r.value < |accounts| && accounts[r.value].id == id
                         && forall k :: 0 <= k < r.value ==> accounts[k].id != id)
    ensures r.None? ==> forall k :: 0 <= k < |accounts| ==> accounts[k].id != id
  {
    if accounts == [] then None
    else if accounts[0].id == id then Some(0)
    else match AccountByID(accounts[1..], id)
      case None => None
      case Some(k) => Some(k + 1)
  }

  /** The ownership rule: the login account exists and is master or owns
      the account. */
  predicate MayManage(login: Option<LoginAccount>, account: PlexAccount, sessionAccountID: string)
  {
    login.Some? && (login.value.isMaster || account.ownerAccountID == sessionAccountID)
  }

  /** The checks every per-account operation makes before acting: a session,
      the IDs in the path, the settings, the account, and ownership. On
      success, the index of the account. */
  function Gate(session: Option<Session>, idsGiven: bool, missingMessage: string, accountID: string,
                load: Result<seq<PlexAccount>, ()>, lookup: string -> Option<LoginAccount>,
                forbiddenMessage: string): (r: Result<nat, HttpError>)
    ensures r.Ok? ==> load.Ok? && r.value < |load.value| && load.value[r.value].id == accountID
    ensures r.Ok? <==> (session.Some? && idsGiven && load.Ok? && AccountByID(load.value, accountID).Some?
                        && MayManage(lookup(session.value.accountID), load.value[AccountByID(load.value, accountID).value],
                                     session.value.accountID))
    ensures session.Some? && idsGiven && load.Ok? && AccountByID(load.value, accountID).Some?
            && !MayManage(lookup(session.value.accountID), load.value[AccountByID(load.value, accountID).value],
                          session.value.accountID)
            ==> r == Err(HttpError(403, forbiddenMessage))
  {
    if session.None? then Err(HttpError(401, "Unauthorized"))
    else if !idsGiven then Err(HttpError(400, missingMessage))
    else if load.Err? then Err(HttpError(500, "Failed to load settings"))
    else match AccountByID(load.value, accountID)
      case None => Err(HttpError(404, "Account not found"))
      case Some(k) =>
        if !MayManage(lookup(session.value.accountID), load.value[k], session.value.accountID) then
          Err(HttpError(403, forbiddenMessage))
        else Ok(k)
  }

  /** The user a token belongs to, as the Plex API reports it. */
  datatype UserInfo = UserInfo(username: string, id: int)

  /** The account after `CheckPIN` receives a token (`info`: the user info,
      `None` when it could not be fetched). */
  function WithToken(acc: PlexAccount, token: string, info: Option<UserInfo>): (r: PlexAccount)
    requires token != ""
    ensures r.authToken == token && r.id == acc.id && r.ownerAccountID == acc.ownerAccountID
    ensures info.None? ==> r == acc.(authToken := token)
    ensures info.Some? ==> r.username == info.value.username && r.userID == info.value.id
    ensures r.name != acc.name ==> info.Some? && (acc.name == "" || acc.name == DefaultAccountName)
                                   && r.name == info.value.username
  {
    match info
    case None => acc.(authToken := token)
    case Some(u) =>
      var named := if acc.name == "" || acc.name == DefaultAccountName then u.username else acc.name;
      acc.(authToken := token, username := u.username, userID := u.id, name := named)
  }

  /** A chosen name survives reconnection: only an empty or default name is
      replaced by the username. */
  lemma ChosenNameKept(acc: PlexAccount, token: string, info: Option<UserInfo>)
    requires token != "" && acc.name != "" && acc.name != DefaultAccountName
    ensures WithToken(acc, token, info).name == acc.name
    ensures ResponseFor(WithToken(acc, token, info)).connected
  {
  }

  /** The account after `Disconnect`: no token and no username, the rest
      unchanged, so it is no longer connected. */
  function Disconnected(acc: PlexAccount): (r: PlexAccount)
    ensures r.authToken == "" && r.username == ""
    ensures r.id == acc.id && r.name == acc.name && r.userID == acc.userID && r.ownerAccountID == acc.ownerAccountID
    ensures !ResponseFor(r).connected
  {
    acc.(authToken := "", username := "")
  }

  /** Disconnecting twice is disconnecting once, and reconnecting after a
      disconnect restores the connection. */
  lemma DisconnectMeaning(acc: PlexAccount, token: string, info: Option<UserInfo>)
    requires token != ""
    ensures Disconnected(Disconnected(acc)) == Disconnected(acc)
    ensures ResponseFor(WithToken(Disconnected(acc), token, info)).connected
  {
  }

  // ---------------------------------------------------------------------------
  // GetHistory.
  // ---------------------------------------------------------------------------

  const DefaultHistoryLimit := 500
  const MaxHistoryLimit := 5000

  /** The "limit" query parameter: 500 unless it is an integer in 1..5000. */
  function HistoryLimit(l: string): (limit: int)
    ensures 1 <= limit <= MaxHistoryLimit
    ensures (ParseInt(l).Some? && 0 < ParseInt(l).value <= MaxHistoryLimit) ==> limit == ParseInt(l).value
    ensures !(ParseInt(l).Some? && 0 < ParseInt(l).value <= MaxHistoryLimit) ==> limit == DefaultHistoryLimit
  {
    if l != "" then
      match ParseInt(l)
      case Some(parsed) => if parsed > 0 && parsed <= MaxHistoryLimit then parsed else DefaultHistoryLimit
      case None => DefaultHistoryLimit
    else DefaultHistoryLimit
  }

  /** The "plexUserId" query parameter: 0 (every user) unless it is a
      positive integer. */
  function PlexUserID(uid: string): (id: int)
    ensures id >= 0
    ensures (ParseInt(uid).Some? && ParseInt(uid).value > 0) ==> id == ParseInt(uid).value
    ensures !(ParseInt(uid).Some? && ParseInt(uid).value > 0) ==> id == 0
  {
    if uid != "" then
      match ParseInt(uid)
      case Some(parsed) => if parsed > 0 then parsed else 0
      case None => 0
    else 0
  }

  /** Every limit in range, written in decimal, is taken as given; so is
      every positive user ID that fits Go's `int`. A larger one fails
      `strconv.Atoi` with a range error and leaves the filter off, as does a
      non-positive one. */
  lemma QueryRoundTrip(n: int)
    ensures 1 <= n <= MaxHistoryLimit ==> HistoryLimit(IntToString(n)) == n
    ensures 0 < n <= MaxInt64 ==> PlexUserID(IntToString(n)) == n
    ensures (n <= 0 || n > MaxInt64) ==> PlexUserID(IntToString(n)) == 0
  {
    if MinInt64 <= n <= MaxInt64 {
      ParseIntOfIntToString(n);
    } else if n > MaxInt64 {
      ParseIntOutOfRange(n);
    } else {
      var d := NatToString(-n);
      assert IntToString(n)[1..] == d;
      assert !AllDigits(IntToString(n)) by { assert !IsDigit(IntToString(n)[0]); }
    }
  }

  /** A history item from the Plex API. */
  datatype HistoryItem = HistoryItem(
    ratingKey: string,
    title: string,
    itemType: string,
    year: int,
    grandparentTitle: string,
    parentIndex: int,
    index: int,
    viewedAt: int,
    externalIDs: map<string, string>,
    serverName: string)

  /** `PlexHistoryItemResponse`. */
  datatype HistoryResponse = HistoryResponse(
    ratingKey: string,
    title: string,
    itemType: string,
    year: int,
    seriesTitle: string,
    season: int,
    episode: int,
    viewedAt: int,
    externalIDs: map<string, string>,
    serverName: string)

  /** One converted item: series title, season and episode only for
      episodes. */
  function HistoryResponseFor(item: HistoryItem): (r: HistoryResponse)
    ensures r.ratingKey == item.ratingKey && r.title == item.title && r.itemType == item.itemType
    ensures r.year == item.year && r.viewedAt == item.viewedAt && r.externalIDs == item.externalIDs
    ensures r.serverName == item.serverName
    ensures item.itemType == "episode" ==>
      r.seriesTitle == item.grandparentTitle && r.season == item.parentIndex && r.episode == item.index
    ensures item.itemType != "episode" ==> r.seriesTitle == "" && r.season == 0 && r.episode == 0
  {
    var base := HistoryResponse(item.ratingKey, item.title, item.itemType, item.year, "", 0, 0,
                                item.viewedAt, item.externalIDs, item.serverName);
    if item.itemType == "episode" then
      base.(seriesTitle := item.grandparentTitle, season := item.parentIndex, episode := item.index)
    else base
  }

  /** The conversion loop of `GetHistory`: one response per item, in order. */
  method HistoryResponses(items: seq<HistoryItem>) returns (out: seq<HistoryResponse>)
    ensures |out| == |items|
    ensures forall i :: 0 <= i < |items| ==> out[i] == HistoryResponseFor(items[i])
  {
    out := [];
    var i := 0;
    while i < |items|
      invariant 0 <= i <= |items|
      invariant |out| == i
      invariant forall k :: 0 <= k < i ==> out[k] == HistoryResponseFor(items[k])
    {
      var item := items[i];
      var resp := HistoryResponse(item.ratingKey, item.title, item.itemType, item.year, "", 0, 0,
                                  item.viewedAt, item.externalIDs, item.serverName);
      if item.itemType == "episode" {
        resp := resp.(seriesTitle := item.grandparentTitle, season := item.parentIndex, episode := item.index);
      }
      out := out + [resp];
      i := i + 1;
    }
  }
}
