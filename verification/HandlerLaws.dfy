/**
  The gated handlers by what a request asks for (PROTOCOL.md sections 8.6 to 8.19): which hook
  calls it causes, with which values and in which order; and what an agent advertises.
 */
module HandlerLaws {
  import opened Wrappers
  import opened Bytes
  import opened EventHub
  import opened Capabilities

  // ---------- calls that read ----------

  /** The call reads and changes nothing. */
  predicate Reads(c: HookCall) {
    c in {CallProxyGroups, CallMode, CallProfiles, CallProviders, CallConnections, CallTraffic, CallSettings, CallActions}
    || c.CallLogs?
  }

  /** The one call of a handler that lists something. */
  function Listed(h: Handler): Option<HookCall> {
    match h
    case HProxies => Some(CallProxyGroups)
    case HGetMode => Some(CallMode)
    case HProfiles => Some(CallProfiles)
    case HProviders => Some(CallProviders)
    case HConnections => Some(CallConnections)
    case HTraffic => Some(CallTraffic)
    case HSettings => Some(CallSettings)
    case HActions => Some(CallActions)
    case _ => None
  }

  lemma {:induction false} ListingMakesOneCall(h: Handler, env: Env)
    requires Listed(h).Some?
    ensures Calls(h, env) == [Listed(h).value]
  {
  }

  /** GET /v1/logs: a known level or none, and 100 lines unless a limit from 1 to 1000 is given; else refused. */
  lemma {:induction false} LogsExactly(env: Env)
    ensures var limit := if env.limit == NoLimit then 100 else if env.limit == NotANumber then 0 else env.limit.n;
            Calls(HLogs, env) ==
            if env.level in {"", "error", "warning", "info", "debug"} && 1 <= limit <= 1000
            then [CallLogs(env.level, limit)] else []
  {
    var levels: seq<string> := ["error", "warning", "info", "debug"];
    assert levels[0] == "error" && levels[1] == "warning" && levels[2] == "info" && levels[3] == "debug";
  }

  // ---------- calls that change something ----------

  /** The handler and the fields of the request a call comes from. */
  predicate AskedFor(c: HookCall, h: Handler, r: Request) {
    match c
    case CallSelectProxy(group, node) => h == HSelect && group == r.group && node == r.node
    case CallUnfixProxy(group) => h == HUnfix && group == r.group
    case CallTestDelay(group, node, url, timeout) =>
      h == HDelay && group == r.group && node == r.node && url == r.url && timeout == if r.timeout == 0 then 5000 else r.timeout
    case CallSetMode(mode) => h == HSetMode && mode == r.mode
    case CallSelectProfile(id) => h == HSelectProfile && id == r.id
    case CallUpdateProfile(id) => h == HUpdateProfile && id == r.id
    case CallDeleteProfile(id) => h == HDeleteProfile && id == r.id
    case CallUpdateProvider(kind, name) => h == HUpdateProvider && kind == r.kind && name == r.name
    case CallHealthCheckProvider(name) => h == HHealthCheckProvider && r.kind == "proxy" && name == r.name
    case CallCloseConnections(id) => h == HCloseConnections && id == r.id
    case CallSetSetting(key, value) => h == HSetSetting && key == r.key && value == r.value
    case CallRunAction(id) => h == HRunAction && id == r.action
    case _ => false
  }

  /** What such a call may carry. */
  ghost predicate Allowable(c: HookCall, env: Env) {
    match c
    case CallSelectProxy(group, node) => group != "" && node != ""
    case CallUnfixProxy(group) => group != ""
    case CallTestDelay(group, _, url, timeout) => group != "" && 100 <= timeout <= 30000 && (url == "" || env.urlOk)
    case CallSetMode(mode) => mode in {"rule", "global", "direct"}
    case CallSelectProfile(id) => id != ""
    case CallDeleteProfile(id) => id != ""
    case CallUpdateProvider(kind, name) => kind in {"proxy", "rule"} && name != ""
    case CallHealthCheckProvider(name) => name != ""
    case CallSetSetting(key, value) =>
      && key != "" && env.settings.Some?
      && exists i :: FirstWithKey(env.settings.value, key, i) && FitsItsType(env.settings.value[i], value)
    case CallRunAction(id) => id != "" && env.actions.Some? && id in env.actions.value
    case _ => true
  }

  lemma {:induction false} SettingFits(env: Env, r: Request, value: Value)
    requires env.settings.Some? && r.key != ""
    ensures CallSetSetting(r.key, value) in SettingCalls(env, r) <==>
            value == r.value
            && exists i :: FirstWithKey(env.settings.value, r.key, i) && FitsItsType(env.settings.value[i], value)
  {
    var i := FoundSettingIsFirst(env.settings.value, r.key);
    forall k | FirstWithKey(env.settings.value, r.key, k)
      ensures k == i && FindSetting(env.settings.value, r.key) == Some(env.settings.value[k])
    {
    }
    if CallSetSetting(r.key, r.value) in SettingCalls(env, r) {
      assert FirstWithKey(env.settings.value, r.key, i);
    }
    if exists k :: FirstWithKey(env.settings.value, r.key, k) && FitsItsType(env.settings.value[k], r.value) {
      assert SettingCalls(env, r)[1] == CallSetSetting(r.key, r.value);
    }
  }

  lemma {:induction false} SettingChangesExactly(c: HookCall, env: Env, r: Request)
    requires !Reads(c)
    ensures c in SettingCalls(env, r) <==> c.CallSetSetting? && AskedFor(c, HSetSetting, r) && Allowable(c, env)
  {
    if r.key != "" && env.settings.Some? && c.CallSetSetting? && c.key == r.key {
      SettingFits(env, r, c.value);
    }
  }

  lemma {:induction false} ActionChangesExactly(c: HookCall, env: Env, r: Request)
    requires !Reads(c)
    ensures c in ActionCalls(env, r) <==> c.CallRunAction? && AskedFor(c, HRunAction, r) && Allowable(c, env)
  {
    if r.action != "" && env.actions.Some? && r.action in env.actions.value {
      assert ActionCalls(env, r)[1] == CallRunAction(r.action);
    }
  }

  lemma {:induction false} BodyChangesExactly(c: HookCall, h: Handler, env: Env, r: Request)
    requires !Reads(c)
    ensures c in BodyCalls(h, env, r) <==> AskedFor(c, h, r) && Allowable(c, env)
  {
    if h == HSetSetting {
      SettingChangesExactly(c, env, r);
    } else if h == HRunAction {
      ActionChangesExactly(c, env, r);
    } else if h in {HSelect, HUnfix, HDelay, HSetMode} {
      ProxyChangesExactly(c, h, env, r);
    } else {
      OtherChangesExactly(c, h, env, r);
    }
  }

  lemma {:induction false} ProxyChangesExactly(c: HookCall, h: Handler, env: Env, r: Request)
    requires !Reads(c) && h in {HSelect, HUnfix, HDelay, HSetMode}
    ensures c in BodyCalls(h, env, r) <==> AskedFor(c, h, r) && Allowable(c, env)
  {
  }

  lemma {:induction false} OtherChangesExactly(c: HookCall, h: Handler, env: Env, r: Request)
    requires !Reads(c) && h !in {HSelect, HUnfix, HDelay, HSetMode, HSetSetting, HRunAction}
    ensures c in BodyCalls(h, env, r) <==> AskedFor(c, h, r) && Allowable(c, env)
  {
  }

  /** A hook is called to change something exactly if that is what the request asks for and may ask for. */
  lemma {:induction false} ChangesExactly(c: HookCall, h: Handler, env: Env)
    requires !Reads(c)
    ensures c in Calls(h, env) <==> env.request.Some? && AskedFor(c, h, env.request.value) && Allowable(c, env)
  {
    if Listed(h).Some? {
      ListingMakesOneCall(h, env);
    } else if h != HLogs && env.request.Some? {
      BodyChangesExactly(c, h, env, env.request.value);
    }
  }

  /** The handler lists what it checks the request against, unless the request names nothing. */
  predicate Checks(h: Handler, r: Request, c: HookCall) {
    (h == HSetSetting && r.key != "" && c == CallSettings) || (h == HRunAction && r.action != "" && c == CallActions)
  }

  lemma {:induction false} BodyReadsExactly(c: HookCall, h: Handler, env: Env, r: Request)
    requires Reads(c)
    ensures c in BodyCalls(h, env, r) <==> Checks(h, r, c)
  {
    if h == HSetSetting && r.key != "" {
      assert SettingCalls(env, r)[0] == CallSettings;
    } else if h == HRunAction && r.action != "" {
      assert ActionCalls(env, r)[0] == CallActions;
    }
  }

  /** A POST handler reads nothing but the list its request is checked against. */
  lemma {:induction false} ReadsExactly(c: HookCall, h: Handler, env: Env)
    requires Reads(c) && Listed(h).None? && h != HLogs
    ensures c in Calls(h, env) <==> env.request.Some? && Checks(h, env.request.value, c)
  {
    if env.request.Some? {
      BodyReadsExactly(c, h, env, env.request.value);
    }
  }

  /** At most two calls: the reading one first, the change last and once. */
  lemma {:induction false} ChangeComesLast(h: Handler, env: Env)
    ensures var calls := Calls(h, env);
            |calls| <= 2 && (|calls| == 2 ==> Reads(calls[0]) && !Reads(calls[1]))
  {
  }

  // ---------- what is advertised ----------

  /** PROTOCOL.md section 8.3: the names, in order, and the interface each stands for. */
  const NAMES: seq<(string, Iface)> := [
    ("proxies", ProxyLister), ("select", ProxySelector), ("unfix", ProxyUnfixer), ("delay", DelayTester),
    ("mode", ModeController), ("profiles", ProfileLister), ("profile_update", ProfileUpdater),
    ("profile_delete", ProfileDeleter), ("providers", ProviderController), ("connections", ConnectionController),
    ("traffic", TrafficReporter), ("logs", LogReader), ("settings", SettingsController), ("actions", ActionRunner)]

  lemma {:induction false} NamesOfCaps(i: nat)
    requires i < 14
    ensures |REMOTE_CAPS| == |NAMES| == 14
    ensures NAMES[i] == (REMOTE_CAPS[i].Name(), InterfaceOf(REMOTE_CAPS[i]))
  {
  }

  ghost predicate IsAdvertised(k: nat, hooks: set<Iface>, disabled: seq<string>)
    requires k < |NAMES|
  {
    NAMES[k].1 in hooks && NAMES[k].0 !in disabled
  }

  predicate IsOn(c: Cap, hooks: set<Iface>, disabled: seq<string>) {
    InterfaceOf(c) in hooks && c.Name() !in disabled
  }

  /** `at` gives the places of the found names in the table, in ascending order; they are those that are on. */
  ghost predicate Places(caps: seq<Cap>, hooks: set<Iface>, disabled: seq<string>, found: seq<string>, at: seq<nat>) {
    && |at| == |found|
    && (forall i, j :: 0 <= i < j < |at| ==> at[i] < at[j])
    && (forall i :: 0 <= i < |at| ==> at[i] < |caps| && found[i] == caps[at[i]].Name())
    && (forall k :: 0 <= k < |caps| ==> (k in at <==> IsOn(caps[k], hooks, disabled)))
  }

  lemma {:induction false} DetectedSnoc(caps: seq<Cap>, c: Cap, hooks: set<Iface>, disabled: seq<string>)
    ensures Detected(caps + [c], hooks, disabled) == Detected(caps, hooks, disabled) + DetectedOne(c, hooks, disabled)
    decreases |caps|
  {
    if caps == [] {
      assert caps + [c] == [c];
    } else {
      assert (caps + [c])[1..] == caps[1..] + [c];
      DetectedSnoc(caps[1..], c, hooks, disabled);
      Regroup3(DetectedOne(caps[0], hooks, disabled), Detected(caps[1..], hooks, disabled), DetectedOne(c, hooks, disabled));
    }
  }

  lemma {:induction false} OnePlaceMore(caps: seq<Cap>, c: Cap, hooks: set<Iface>, disabled: seq<string>,
                                        found: seq<string>, at: seq<nat>)
    requires Places(caps, hooks, disabled, found, at) && IsOn(c, hooks, disabled)
    ensures Places(caps + [c], hooks, disabled, found + [c.Name()], at + [|caps|])
  {
    var all, more := caps + [c], at + [|caps|];
    forall k | 0 <= k < |all|
      ensures k in more <==> IsOn(all[k], hooks, disabled)
    {
      assert k < |caps| ==> all[k] == caps[k];
      assert k in more <==> k in at || k == |caps|;
    }
  }

  lemma {:induction false} NoPlaceMore(caps: seq<Cap>, c: Cap, hooks: set<Iface>, disabled: seq<string>,
                                       found: seq<string>, at: seq<nat>)
    requires Places(caps, hooks, disabled, found, at) && !IsOn(c, hooks, disabled)
    ensures Places(caps + [c], hooks, disabled, found, at)
  {
    var all := caps + [c];
    forall k | 0 <= k < |all|
      ensures k in at <==> IsOn(all[k], hooks, disabled)
    {
      assert k < |caps| ==> all[k] == caps[k];
    }
  }

  lemma {:induction false} MorePlaces(caps: seq<Cap>, c: Cap, hooks: set<Iface>, disabled: seq<string>,
                                      found: seq<string>, at: seq<nat>) returns (more: seq<nat>)
    ensures Places(caps, hooks, disabled, found, at) ==>
              Places(caps + [c], hooks, disabled, found + DetectedOne(c, hooks, disabled), more)
  {
    more := if IsOn(c, hooks, disabled) then at + [|caps|] else at;
    if Places(caps, hooks, disabled, found, at) {
      if IsOn(c, hooks, disabled) {
        OnePlaceMore(caps, c, hooks, disabled, found, at);
      } else {
        NoPlaceMore(caps, c, hooks, disabled, found, at);
        assert found + [] == found;
      }
    }
  }

  lemma {:induction false} PlacesOfDetected(caps: seq<Cap>, hooks: set<Iface>, disabled: seq<string>)
    returns (found: seq<string>, at: seq<nat>)
    ensures found == Detected(caps, hooks, disabled) && Places(caps, hooks, disabled, found, at)
  {
    if caps == [] {
      found, at := [], [];
    } else {
      var init, last := caps[..|caps| - 1], caps[|caps| - 1];
      BeforeLast(caps, 0);
      found, at := PlacesOfDetected(init, hooks, disabled);
      DetectedSnoc(init, last, hooks, disabled);
      at := MorePlaces(init, last, hooks, disabled, found, at);
      found := found + DetectedOne(last, hooks, disabled);
    }
  }

  /** The names of PROTOCOL.md whose hooks are implemented and that are not disabled: each once, in that order. */
  lemma {:induction false} AdvertisedInOrder(hooks: set<Iface>, disabled: seq<string>) returns (at: seq<nat>)
    ensures |at| == |Advertised(hooks, disabled)|
    ensures forall i, j :: 0 <= i < j < |at| ==> at[i] < at[j]
    ensures forall i :: 0 <= i < |at| ==> at[i] < |NAMES| && Advertised(hooks, disabled)[i] == NAMES[at[i]].0
    ensures forall k :: 0 <= k < |NAMES| ==> (k in at <==> IsAdvertised(k, hooks, disabled))
  {
    var found: seq<string>;
    found, at := PlacesOfDetected(REMOTE_CAPS, hooks, disabled);
    forall k: nat | k < 14
      ensures |REMOTE_CAPS| == |NAMES| == 14 && NAMES[k] == (REMOTE_CAPS[k].Name(), InterfaceOf(REMOTE_CAPS[k]))
    {
      NamesOfCaps(k);
    }
  }
}
