/**
 * The admin console's access control and dashboard figures
 * (backend/handlers/admin_ui.go): the session store with its expiry
 * cleanup, the PIN check, the login form's decision, the counters used by
 * the templates and the status summary. The clock and the random token are
 * parameters; templates, JSON and HTTP plumbing are not modelled.
 */
module AdminUi {
  import opened Wrappers
  import opened Strs
  import opened Config
  import DebridPlayback

  const Second := 1_000_000_000
  /** `adminSessionDuration`, in nanoseconds. */
  const SessionDuration := 24 * 60 * 60 * Second
  const SessionCookieName := "strmr_admin_session"
  /** `int(adminSessionDuration.Seconds())`. */
  const SessionMaxAge := 86400

  /** The sessions left by the cleanup at `now`: those not expired before it. */
  function Unexpired(sessions: map<string, int>, now: int): map<string, int>
  {
    map t | t in sessions && !(sessions[t] < now) :: sessions[t]
  }

  /** The cleanup keeps exactly the entries not yet expired, unchanged; it
      is idempotent and only ever removes. */
  lemma UnexpiredMeaning(sessions: map<string, int>, now: int)
    ensures forall t :: t in Unexpired(sessions, now) <==> t in sessions && sessions[t] >= now
    ensures forall t :: t in Unexpired(sessions, now) ==> Unexpired(sessions, now)[t] == sessions[t]
    ensures Unexpired(Unexpired(sessions, now), now) == Unexpired(sessions, now)
    ensures Unexpired(sessions, now).Keys <= sessions.Keys
  {
  }

  /** `adminSessionStore`: token to expiry. */
  class SessionStore {
    var sessions: map<string, int>

    constructor()
      ensures sessions == map[]
    {
      sessions := map[];
    }

    /** `validate`: the token is known and expires after `now`. */
    predicate Validate(token: string, now: int)
      reads this
    {
      token in sessions && sessions[token] > now
    }

    /** `create`, with `token` the freshly drawn token and `now` the clock:
        the token expires a day later, every session expired before `now`
        is dropped, and the new token validates at `now`. */
    method Create(token: string, now: int) returns (t: string)
      modifies this
      ensures t == token
      ensures sessions == Unexpired(old(sessions)[token := now + SessionDuration], now)
      ensures Validate(t, now)
    {
      sessions := sessions[token := now + SessionDuration];
      ghost var before := sessions;
      var pending := sessions.Keys;
      while pending != {}
        invariant pending <= before.Keys
        invariant forall k :: k in sessions <==> k in before && (k in pending || before[k] >= now)
        invariant forall k :: k in sessions ==> sessions[k] == before[k]
        decreases |pending|
      {
        var k :| k in pending;
        if sessions[k] < now {
          sessions := sessions - {k};
        }
        pending := pending - {k};
      }
      UnexpiredMeaning(before, now);
      assert sessions.Keys == Unexpired(before, now).Keys;
      t := token;
    }

    /** `revoke`: only the given token is forgotten. */
    method Revoke(token: string)
      modifies this
      ensures sessions == old(sessions) - {token}
      ensures forall now :: !Validate(token, now)
      ensures forall k, now :: k != token ==> (Validate(k, now) <==> old(Validate(k, now)))
    {
      sessions := sessions - {token};
    }
  }

  /** A token validates at `now` exactly when cleanup at `now` would keep it
      and it does not expire at `now` itself. */
  lemma ValidateMeaning(sessions: map<string, int>, token: string, now: int)
    ensures (token in sessions && sessions[token] > now) <==>
      (token in Unexpired(sessions, now) && sessions[token] != now)
  {
  }

  /** The login page's answer. */
  datatype Cookie = Cookie(name: string, value: string, path: string, maxAge: int, httpOnly: bool)
  datatype LoginResponse = Redirect(location: string, cookie: Option<Cookie>) | LoginError(message: string)

  /** `AdminUIHandler`, with the package's session store. */
  class AdminHandler {
    const pin: string
    const store: SessionStore

    /** `NewAdminUIHandler` keeps the PIN trimmed. */
    constructor(pin: string, store: SessionStore)
      ensures this.pin == Trim(pin) && this.store == store
    {
      this.pin := Trim(pin);
      this.store := store;
    }

    /** `IsAuthenticated`, for the request's session cookie (`None`: no
        cookie). */
    predicate IsAuthenticated(cookie: Option<string>, now: int)
      reads this, store
    {
      if pin == "" then true
      else cookie.Some? && store.Validate(cookie.value, now)
    }

    /** `LoginSubmit`, for the parsed form's "pin" field (`None`: the form
        did not parse), the token `create` would draw and the clock. A
        successful login returns a cookie that authenticates at once. */
    method LoginSubmit(form: Option<string>, token: string, now: int) returns (r: LoginResponse)
      modifies store
      ensures pin == "" ==> r == Redirect("/admin", None) && store.sessions == old(store.sessions)
      ensures pin != "" && form.None? ==> r == LoginError("Invalid request") && store.sessions == old(store.sessions)
      ensures pin != "" && form.Some? && Trim(form.value) == "" ==>
        r == LoginError("PIN is required") && store.sessions == old(store.sessions)
      ensures pin != "" && form.Some? && Trim(form.value) != "" && Trim(form.value) != pin ==>
        r == LoginError("Invalid PIN") && store.sessions == old(store.sessions)
      ensures pin != "" && form.Some? && Trim(form.value) == pin ==>
        r == Redirect("/admin", Some(Cookie(SessionCookieName, token, "/admin", SessionMaxAge, true)))
        && store.sessions == Unexpired(old(store.sessions)[token := now + SessionDuration], now)
      ensures r.Redirect? && r.cookie.Some? ==> IsAuthenticated(Some(r.cookie.value.value), now)
    {
      if pin == "" {
        return Redirect("/admin", None);
      }
      if form.None? {
        return LoginError("Invalid request");
      }
      var submitted := Trim(form.value);
      if submitted == "" {
        return LoginError("PIN is required");
      }
      if submitted != pin {
        return LoginError("Invalid PIN");
      }
      var t := store.Create(token, now);
      r := Redirect("/admin", Some(Cookie(SessionCookieName, t, "/admin", SessionMaxAge, true)));
    }
  }

  /** Without a configured PIN everyone is let in; with one, only a request
      whose cookie names a live session. */
  lemma IsAuthenticatedMeaning(h: AdminHandler, cookie: Option<string>, now: int)
    ensures h.pin == "" ==> h.IsAuthenticated(cookie, now)
    ensures h.pin != "" ==>
      (h.IsAuthenticated(cookie, now) <==> cookie.Some? && cookie.value in h.store.sessions
                                           && h.store.sessions[cookie.value] > now)
  {
  }

  // ---------------------------------------------------------------------------
  // Counters and the status summary.
  // ---------------------------------------------------------------------------

  /** The number of items that pass `enabled`. */
  function CountWhere<T>(items: seq<T>, enabled: T -> bool): nat
  {
    if items == [] then 0
    else CountWhere(items[..|items| - 1], enabled) + (if enabled(items[|items| - 1]) then 1 else 0)
  }

  /** A count never exceeds the length; it is the length exactly when every
      item passes and zero exactly when none does. */
  lemma {:induction false} CountWhereBounds<T>(items: seq<T>, enabled: T -> bool)
    ensures CountWhere(items, enabled) <= |items|
    ensures CountWhere(items, enabled) == |items| <==> forall i :: 0 <= i < |items| ==> enabled(items[i])
    ensures CountWhere(items, enabled) == 0 <==> forall i :: 0 <= i < |items| ==> !enabled(items[i])
  {
    if items != [] {
      var init := items[..|items| - 1];
      CountWhereBounds(init, enabled);
      assert forall i :: 0 <= i < |init| ==> init[i] == items[i];
    }
  }

  /** The loop of `countEnabledProviders`, `countEnabledIndexers`,
      `countEnabledScrapers` and `countEnabledDebrid`, and of
      `countEnabled` with its own test. */
  method CountEnabled<T>(items: seq<T>, enabled: T -> bool) returns (count: nat)
    ensures count == CountWhere(items, enabled)
  {
    count := 0;
    var i := 0;
    while i < |items|
      invariant 0 <= i <= |items|
      invariant count == CountWhere(items[..i], enabled)
    {
      assert items[..i + 1][..i] == items[..i];
      if enabled(items[i]) {
        count := count + 1;
      }
      i := i + 1;
    }
    assert items[..i] == items;
  }

  /** A template item: a JSON object or anything else; only a boolean can
      enable an object. */
  datatype JsonValue = JsonBool(b: bool) | JsonOther
  datatype Item = JsonObject(fields: map<string, JsonValue>) | NotAnObject

  /** `countEnabled`'s test: an object whose "enabled" field is the boolean
      true. */
  predicate ItemEnabled(item: Item)
  {
    item.JsonObject? && "enabled" in item.fields && item.fields["enabled"] == JsonBool(true)
  }

  /** Items that are not objects, lack "enabled" or hold a non-boolean there
      are never counted. */
  lemma CountEnabledItemsMeaning(items: seq<Item>)
    ensures (forall i :: 0 <= i < |items| ==>
               (items[i].NotAnObject? || "enabled" !in items[i].fields || items[i].fields["enabled"] != JsonBool(true)))
            ==> CountWhere(items, ItemEnabled) == 0
  {
    CountWhereBounds(items, ItemEnabled);
  }

  /** The connections of the enabled providers, summed. */
  function EnabledConnections(providers: seq<UsenetSettings>): int
  {
    if providers == [] then 0
    else
      var p := providers[|providers| - 1];
      EnabledConnections(providers[..|providers| - 1]) + (if p.enabled then p.connections else 0)
  }

  /** Disabled providers add nothing, and sums over two runs add up. */
  lemma {:induction false} EnabledConnectionsConcat(a: seq<UsenetSettings>, b: seq<UsenetSettings>)
    ensures EnabledConnections(a + b) == EnabledConnections(a) + EnabledConnections(b)
    decreases |b|
  {
    if b == [] {
      assert a + b == a;
    } else {
      var b' := b[..|b| - 1];
      assert (a + b)[..|a + b| - 1] == a + b';
      assert (a + b)[|a + b| - 1] == b[|b| - 1];
      EnabledConnectionsConcat(a, b');
    }
  }

  /** With no negative connection count, the enabled total is at most the
      total of all providers. */
  lemma {:induction false} EnabledConnectionsAtMostAll(providers: seq<UsenetSettings>)
    requires forall i :: 0 <= i < |providers| ==> providers[i].connections >= 0
    ensures 0 <= EnabledConnections(providers)
    ensures EnabledConnections(providers) <= AllConnections(providers)
  {
    if providers != [] {
      var init := providers[..|providers| - 1];
      assert forall i :: 0 <= i < |init| ==> init[i] == providers[i];
      EnabledConnectionsAtMostAll(init);
    }
  }

  function AllConnections(providers: seq<UsenetSettings>): int
  {
    if providers == [] then 0
    else AllConnections(providers[..|providers| - 1]) + providers[|providers| - 1].connections
  }

  /** `totalConnections`. */
  method TotalConnections(providers: seq<UsenetSettings>) returns (total: int)
    ensures total == EnabledConnections(providers)
  {
    total := 0;
    var i := 0;
    while i < |providers|
      invariant 0 <= i <= |providers|
      invariant total == EnabledConnections(providers[..i])
    {
      assert providers[..i + 1][..i] == providers[..i];
      if providers[i].enabled {
        total := total + providers[i].connections;
      }
      i := i + 1;
    }
    assert providers[..i] == providers;
  }

  /** `AdminStatus`, without its timestamp. */
  datatype AdminStatus = AdminStatus(backendReachable: bool, usenetTotal: int, debridStatus: string)

  /** The debrid line of the status page. */
  function DebridStatusText(enabled: nat): (r: string)
    ensures enabled > 0 ==> r == NatToString(enabled) + " provider(s) configured"
    ensures enabled == 0 ==> r == "No providers enabled"
    ensures r == "No providers enabled" <==> enabled == 0
  {
    if enabled > 0 then NatToString(enabled) + " provider(s) configured" else "No providers enabled"
  }

  predicate DebridEnabled(p: DebridPlayback.DebridProviderSettings)
  {
    p.enabled
  }

  /** `getStatus`: the Usenet total is `totalConnections`'s, and the debrid
      line counts the enabled debrid providers. */
  method GetStatus(usenet: seq<UsenetSettings>, debrid: seq<DebridPlayback.DebridProviderSettings>)
    returns (status: AdminStatus)
    ensures status.backendReachable
    ensures status.usenetTotal == EnabledConnections(usenet)
    ensures status.debridStatus == DebridStatusText(CountWhere(debrid, DebridEnabled))
  {
    var usenetTotal := 0;
    var i := 0;
    while i < |usenet|
      invariant 0 <= i <= |usenet|
      invariant usenetTotal == EnabledConnections(usenet[..i])
    {
      assert usenet[..i + 1][..i] == usenet[..i];
      if usenet[i].enabled {
        usenetTotal := usenetTotal + usenet[i].connections;
      }
      i := i + 1;
    }
    assert usenet[..i] == usenet;
    var enabledDebrid := 0;
    var j := 0;
    while j < |debrid|
      invariant 0 <= j <= |debrid|
      invariant enabledDebrid == CountWhere(debrid[..j], DebridEnabled)
    {
      assert debrid[..j + 1][..j] == debrid[..j];
      if debrid[j].enabled {
        enabledDebrid := enabledDebrid + 1;
      }
      j := j + 1;
    }
    assert debrid[..j] == debrid;
    status := AdminStatus(true, usenetTotal, DebridStatusText(enabledDebrid));
  }
}
