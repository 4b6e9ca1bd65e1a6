/**
  Remote-control capabilities and their handlers (go/agent/control.go): which are
  advertised, which hook interface each handler asserts, and what its hook calls carry.
 */
module Capabilities {
  import opened Wrappers
  import opened Bytes
  import opened EventHub

  /** The optional hook interfaces of go/agent/hooks.go. */
  datatype Iface =
    | ProxyLister | ProxySelector | ProxyUnfixer | DelayTester | ModeController | ProfileLister | ProfileUpdater
    | ProfileDeleter | ProviderController | ConnectionController | TrafficReporter | LogReader | SettingsController
    | ActionRunner

  /** The protocol.Cap* constants that ask for a hook interface. */
  datatype Cap =
    | Proxies | Select | Unfix | Delay | Mode | Profiles | ProfileUpdate | ProfileDelete | Providers | Connections
    | Traffic | Logs | Settings | Actions
  {
    function Name(): string {
      match this
      case Proxies => "proxies"
      case Select => "select"
      case Unfix => "unfix"
      case Delay => "delay"
      case Mode => "mode"
      case Profiles => "profiles"
      case ProfileUpdate => "profile_update"
      case ProfileDelete => "profile_delete"
      case Providers => "providers"
      case Connections => "connections"
      case Traffic => "traffic"
      case Logs => "logs"
      case Settings => "settings"
      case Actions => "actions"
    }
  }

  /** remoteCaps: the tags in advertisement order, and the interface each of them asks for. */
  const REMOTE_CAPS: seq<Cap> := [
    Proxies, Select, Unfix, Delay, Mode, Profiles, ProfileUpdate, ProfileDelete, Providers, Connections,
    Traffic, Logs, Settings, Actions
  ]

  function InterfaceOf(c: Cap): Iface {
    match c
    case Proxies => ProxyLister
    case Select => ProxySelector
    case Unfix => ProxyUnfixer
    case Delay => DelayTester
    case Mode => ModeController
    case Profiles => ProfileLister
    case ProfileUpdate => ProfileUpdater
    case ProfileDelete => ProfileDeleter
    case Providers => ProviderController
    case Connections => ConnectionController
    case Traffic => TrafficReporter
    case Logs => LogReader
    case Settings => SettingsController
    case Actions => ActionRunner
  }

  datatype Handler =
    | HProxies | HSelect | HUnfix | HDelay | HGetMode | HSetMode | HProfiles | HSelectProfile | HUpdateProfile
    | HDeleteProfile | HProviders | HUpdateProvider | HHealthCheckProvider | HConnections | HCloseConnections
    | HTraffic | HLogs | HSettings | HSetSetting | HActions | HRunAction

  /** The table of mountRemote: the capability each route is gated by. */
  function GateOf(h: Handler): Cap {
    match h
    case HProxies => Proxies // GET /v1/proxies
    case HSelect => Select // POST /v1/proxies/select
    case HUnfix => Unfix // POST /v1/proxies/unfix
    case HDelay => Delay // POST /v1/proxies/delay
    case HGetMode => Mode // GET /v1/mode
    case HSetMode => Mode // POST /v1/mode
    case HProfiles => Profiles // GET /v1/profiles
    case HSelectProfile => Profiles // POST /v1/profiles/select
    case HUpdateProfile => ProfileUpdate // POST /v1/profiles/update
    case HDeleteProfile => ProfileDelete // POST /v1/profiles/delete
    case HProviders => Providers // GET /v1/providers
    case HUpdateProvider => Providers // POST /v1/providers/update
    case HHealthCheckProvider => Providers // POST /v1/providers/healthcheck
    case HConnections => Connections // GET /v1/connections
    case HCloseConnections => Connections // POST /v1/connections/close
    case HTraffic => Traffic // GET /v1/traffic
    case HLogs => Logs // GET /v1/logs
    case HSettings => Settings // GET /v1/settings
    case HSetSetting => Settings // POST /v1/settings
    case HActions => Actions // GET /v1/actions
    case HRunAction => Actions // POST /v1/actions
  }

  // ---------- advertisement ----------

  function DetectedOne(c: Cap, hooks: set<Iface>, disabled: seq<string>): seq<string> {
    if InterfaceOf(c) in hooks && c.Name() !in disabled then [c.Name()] else []
  }

  function Detected(caps: seq<Cap>, hooks: set<Iface>, disabled: seq<string>): seq<string> {
    if caps == [] then [] else DetectedOne(caps[0], hooks, disabled) + Detected(caps[1..], hooks, disabled)
  }

  /** What the agent advertises for given hooks. */
  function Advertised(hooks: set<Iface>, disabled: seq<string>): seq<string> {
    Detected(REMOTE_CAPS, hooks, disabled)
  }

  method DetectRemoteCaps(hooks: set<Iface>, disabled: seq<string>) returns (caps: seq<string>)
    ensures caps == Advertised(hooks, disabled)
  {
    caps := CollectCaps(REMOTE_CAPS, hooks, disabled);
  }

  method CollectCaps(table: seq<Cap>, hooks: set<Iface>, disabled: seq<string>) returns (caps: seq<string>)
    ensures caps == Detected(table, hooks, disabled)
  {
    caps := [];
    for i := 0 to |table|
      invariant caps + Detected(table[i..], hooks, disabled) == Detected(table, hooks, disabled)
    {
      var c := table[i];
      assert table[i..][1..] == table[i + 1..];
      Regroup3(caps, DetectedOne(c, hooks, disabled), Detected(table[i + 1..], hooks, disabled));
      if InterfaceOf(c) in hooks && c.Name() !in disabled {
        caps := caps + [c.Name()];
      } else {
        assert caps + [] == caps;
      }
    }
  }

  lemma {:induction false} DetectedExactly(caps: seq<Cap>, hooks: set<Iface>, disabled: seq<string>, name: string)
    ensures name in Detected(caps, hooks, disabled) <==>
            name !in disabled && exists c :: c in caps && c.Name() == name && InterfaceOf(c) in hooks
  {
    if caps != [] {
      DetectedExactly(caps[1..], hooks, disabled, name);
      assert forall c :: c in caps <==> c == caps[0] || c in caps[1..];
    }
  }

  // ---------- hook calls ----------

  /** A decoded JSON value of a setting. */
  datatype Value = BoolValue(b: bool) | TextValue(text: string) | OtherValue

  datatype HookCall =
    | CallProxyGroups
    | CallSelectProxy(group: string, node: string)
    | CallUnfixProxy(group: string)
    | CallTestDelay(group: string, node: string, url: string, timeout: int)
    | CallMode
    | CallSetMode(mode: string)
    | CallProfiles
    | CallSelectProfile(id: string)
    | CallUpdateProfile(id: string)
    | CallDeleteProfile(id: string)
    | CallProviders
    | CallUpdateProvider(kind: string, name: string)
    | CallHealthCheckProvider(name: string)
    | CallConnections
    | CallCloseConnections(id: string)
    | CallTraffic
    | CallLogs(level: string, limit: int)
    | CallSettings
    | CallSetSetting(key: string, value: Value)
    | CallActions
    | CallRunAction(id: string)

  /** The interface whose method a call is: what the handler's type assertion asks of Hooks. */
  function Needs(c: HookCall): Iface {
    match c
    case CallProxyGroups => ProxyLister
    case CallSelectProxy(_, _) => ProxySelector
    case CallUnfixProxy(_) => ProxyUnfixer
    case CallTestDelay(_, _, _, _) => DelayTester
    case CallMode => ModeController
    case CallSetMode(_) => ModeController
    case CallProfiles => ProfileLister
    case CallSelectProfile(_) => ProfileLister
    case CallUpdateProfile(_) => ProfileUpdater
    case CallDeleteProfile(_) => ProfileDeleter
    case CallProviders => ProviderController
    case CallUpdateProvider(_, _) => ProviderController
    case CallHealthCheckProvider(_) => ProviderController
    case CallConnections => ConnectionController
    case CallCloseConnections(_) => ConnectionController
    case CallTraffic => TrafficReporter
    case CallLogs(_, _) => LogReader
    case CallSettings => SettingsController
    case CallSetSetting(_, _) => SettingsController
    case CallActions => ActionRunner
    case CallRunAction(_) => ActionRunner
  }

  datatype Setting = Setting(key: string, typ: string, options: seq<string>)

  /** The limit parameter of GET /v1/logs, as strconv.Atoi reads it. */
  datatype Limit = NoLimit | NotANumber | Limit(n: int)

  /** A decoded request; a field the body lacks has Go's zero value. */
  datatype Request = Request(
    group: string, node: string, url: string, timeout: int, mode: string, id: string, kind: string, name: string,
    key: string, value: Value, action: string)

  /**
    What a handler cannot decide itself: the request, None when its body is not JSON; the level
    and limit of the query; whether net/url takes the request's URL for an absolute http(s) one;
    and what the hooks list, None on error.
   */
  datatype Env = Env(
    request: Option<Request>, level: string, limit: Limit,
    urlOk: bool, settings: Option<seq<Setting>>, actions: Option<seq<string>>)

  const DEFAULT_DELAY := 5000
  const MIN_DELAY := 100
  const MAX_DELAY := 30000
  const DEFAULT_LIMIT := 100
  const MAX_LIMIT := 1000

  predicate ValidMode(m: string) {
    m == "rule" || m == "global" || m == "direct"
  }

  /** checkSettingValue */
  predicate ValueFits(s: Setting, v: Value) {
    if s.typ == "bool" then v.BoolValue?
    else if s.typ == "enum" then v.TextValue? && v.text in s.options
    else false
  }

  /** slices.IndexFunc by key. */
  function FindSetting(list: seq<Setting>, key: string): Option<Setting> {
    if list == [] then None
    else if list[0].key == key then Some(list[0])
    else FindSetting(list[1..], key)
  }

  /** The hook calls a handler makes; none when it refuses the request. */
  function Calls(h: Handler, env: Env): seq<HookCall> {
    match h
    case HProxies => [CallProxyGroups]
    case HGetMode => [CallMode]
    case HProfiles => [CallProfiles]
    case HProviders => [CallProviders]
    case HConnections => [CallConnections]
    case HTraffic => [CallTraffic]
    case HSettings => [CallSettings]
    case HActions => [CallActions]
    case HLogs => LogsCalls(env.level, env.limit)
    case _ => if env.request.None? then [] else BodyCalls(h, env, env.request.value)
  }

  function LogsCalls(level: string, limit: Limit): seq<HookCall> {
    if level != "" && level !in LOG_LEVELS then []
    else
      match limit
      case NoLimit => [CallLogs(level, DEFAULT_LIMIT)]
      case NotANumber => []
      case Limit(n) => if n < 1 || n > MAX_LIMIT then [] else [CallLogs(level, n)]
  }

  function BodyCalls(h: Handler, env: Env, r: Request): seq<HookCall> {
    match h
    case HSelect => if r.group == "" || r.node == "" then [] else [CallSelectProxy(r.group, r.node)]
    case HUnfix => if r.group == "" then [] else [CallUnfixProxy(r.group)]
    case HDelay => DelayCalls(env, r)
    case HSetMode => if !ValidMode(r.mode) then [] else [CallSetMode(r.mode)]
    case HSelectProfile => if r.id == "" then [] else [CallSelectProfile(r.id)]
    case HUpdateProfile => [CallUpdateProfile(r.id)]
    case HDeleteProfile => if r.id == "" then [] else [CallDeleteProfile(r.id)]
    case HUpdateProvider =>
      if r.name == "" || r.kind !in ["proxy", "rule"] then [] else [CallUpdateProvider(r.kind, r.name)]
    case HHealthCheckProvider =>
      if r.name == "" || r.kind !in ["proxy"] then [] else [CallHealthCheckProvider(r.name)]
    case HCloseConnections => [CallCloseConnections(r.id)]
    case HSetSetting => SettingCalls(env, r)
    case HRunAction => ActionCalls(env, r)
    case _ => []
  }

  function DelayCalls(env: Env, r: Request): seq<HookCall> {
    if r.group == "" then []
    else if r.timeout != 0 && (r.timeout < MIN_DELAY || r.timeout > MAX_DELAY) then []
    else if r.url != "" && !env.urlOk then []
    else [CallTestDelay(r.group, r.node, r.url, if r.timeout == 0 then DEFAULT_DELAY else r.timeout)]
  }

  function SettingCalls(env: Env, r: Request): seq<HookCall> {
    if r.key == "" then []
    else if env.settings.None? then [CallSettings]
    else
      match FindSetting(env.settings.value, r.key)
      case None => [CallSettings]
      case Some(s) => if ValueFits(s, r.value) then [CallSettings, CallSetSetting(r.key, r.value)] else [CallSettings]
  }

  function ActionCalls(env: Env, r: Request): seq<HookCall> {
    if r.action == "" then []
    else if env.actions.None? || r.action !in env.actions.value then [CallActions]
    else [CallActions, CallRunAction(r.action)]
  }

  /** The documented shape of what a hook may be handed. */
  ghost predicate WellShaped(c: HookCall, env: Env) {
    match c
    case CallSelectProxy(group, node) => group != "" && node != ""
    case CallUnfixProxy(group) => group != ""
    case CallTestDelay(group, _, url, timeout) => group != "" && MIN_DELAY <= timeout <= MAX_DELAY && (url == "" || env.urlOk)
    case CallSetMode(mode) => mode in {"rule", "global", "direct"}
    case CallSelectProfile(id) => id != ""
    case CallDeleteProfile(id) => id != ""
    case CallUpdateProvider(kind, name) => kind in {"proxy", "rule"} && name != ""
    case CallHealthCheckProvider(name) => name != ""
    case CallLogs(level, limit) => (level == "" || level in LOG_LEVELS) && 1 <= limit <= MAX_LIMIT
    case CallSetSetting(key, value) =>
      && key != "" && env.settings.Some?
      && exists i :: FirstWithKey(env.settings.value, key, i) && FitsItsType(env.settings.value[i], value)
    case CallRunAction(id) => id != "" && env.actions.Some? && id in env.actions.value
    case _ => true
  }

  ghost predicate FitsItsType(s: Setting, v: Value) {
    (s.typ == "bool" && v.BoolValue?) || (s.typ == "enum" && v.TextValue? && v.text in s.options)
  }

  ghost predicate FirstWithKey(list: seq<Setting>, key: string, i: int) {
    0 <= i < |list| && list[i].key == key && forall j :: 0 <= j < i ==> list[j].key != key
  }

  lemma {:induction false} FoundSettingIsFirst(list: seq<Setting>, key: string) returns (i: int)
    ensures match FindSetting(list, key)
            case None => forall j :: 0 <= j < |list| ==> list[j].key != key
            case Some(s) => FirstWithKey(list, key, i) && list[i] == s
  {
    i := 0;
    if list != [] && list[0].key != key {
      i := FoundSettingIsFirst(list[1..], key);
      i := i + 1;
      assert forall j :: 0 < j < |list| ==> list[j] == list[1..][j - 1];
    }
  }

  /** The interface a handler asserts. */
  function Asserts(h: Handler): Iface {
    match h
    case HProxies => ProxyLister
    case HSelect => ProxySelector
    case HUnfix => ProxyUnfixer
    case HDelay => DelayTester
    case HGetMode => ModeController
    case HSetMode => ModeController
    case HProfiles => ProfileLister
    case HSelectProfile => ProfileLister
    case HUpdateProfile => ProfileUpdater
    case HDeleteProfile => ProfileDeleter
    case HProviders => ProviderController
    case HUpdateProvider => ProviderController
    case HHealthCheckProvider => ProviderController
    case HConnections => ConnectionController
    case HCloseConnections => ConnectionController
    case HTraffic => TrafficReporter
    case HLogs => LogReader
    case HSettings => SettingsController
    case HSetSetting => SettingsController
    case HActions => ActionRunner
    case HRunAction => ActionRunner
  }

  lemma {:induction false} SettingCallsAreWellShaped(env: Env, r: Request, c: HookCall)
    requires c in SettingCalls(env, r)
    ensures WellShaped(c, env) && Needs(c) == SettingsController
  {
    if env.settings.Some? {
      var _ := FoundSettingIsFirst(env.settings.value, r.key);
    }
  }

  lemma {:induction false} BodyCallsAreWellShaped(h: Handler, env: Env, r: Request, c: HookCall)
    requires c in BodyCalls(h, env, r)
    ensures WellShaped(c, env) && Needs(c) == Asserts(h)
  {
    if h.HSetSetting? {
      SettingCallsAreWellShaped(env, r, c);
    }
  }

  /** Hooks only see values within the documented shape, through the handler's own interface. */
  lemma {:induction false} CallsAreWellShaped(h: Handler, env: Env, c: HookCall)
    requires c in Calls(h, env)
    ensures WellShaped(c, env) && Needs(c) == Asserts(h)
  {
    if env.request.Some? && c in BodyCalls(h, env, env.request.value) {
      BodyCallsAreWellShaped(h, env, env.request.value, c);
    }
  }

  const BLANK := Request("", "", "", 0, "", "", "", "", "", OtherValue, "")

  /** A request that makes the handler of a POST route call the hook. */
  function Asking(c: HookCall): Option<(Handler, Request)> {
    match c
    case CallSelectProxy(group, node) => Some((HSelect, BLANK.(group := group, node := node)))
    case CallUnfixProxy(group) => Some((HUnfix, BLANK.(group := group)))
    case CallTestDelay(group, node, url, timeout) =>
      Some((HDelay, BLANK.(group := group, node := node, url := url, timeout := timeout)))
    case CallSetMode(mode) => Some((HSetMode, BLANK.(mode := mode)))
    case CallSelectProfile(id) => Some((HSelectProfile, BLANK.(id := id)))
    case CallUpdateProfile(id) => Some((HUpdateProfile, BLANK.(id := id)))
    case CallDeleteProfile(id) => Some((HDeleteProfile, BLANK.(id := id)))
    case CallUpdateProvider(kind, name) => Some((HUpdateProvider, BLANK.(kind := kind, name := name)))
    case CallHealthCheckProvider(name) => Some((HHealthCheckProvider, BLANK.(kind := "proxy", name := name)))
    case CallCloseConnections(id) => Some((HCloseConnections, BLANK.(id := id)))
    case CallSetSetting(key, value) => Some((HSetSetting, BLANK.(key := key, value := value)))
    case CallRunAction(id) => Some((HRunAction, BLANK.(action := id)))
    case _ => None
  }

  /** The handler of a GET route; only that of the logs reads the query. */
  function Showing(c: HookCall): Option<Handler> {
    match c
    case CallProxyGroups => Some(HProxies)
    case CallMode => Some(HGetMode)
    case CallProfiles => Some(HProfiles)
    case CallProviders => Some(HProviders)
    case CallConnections => Some(HConnections)
    case CallTraffic => Some(HTraffic)
    case CallLogs(_, _) => Some(HLogs)
    case CallSettings => Some(HSettings)
    case CallActions => Some(HActions)
    case _ => None
  }

  lemma {:induction false} SettingIsServed(key: string, value: Value, env: Env, r: Request)
    requires WellShaped(CallSetSetting(key, value), env) && r.key == key && r.value == value
    ensures CallSetSetting(key, value) in SettingCalls(env.(request := Some(r)), r)
  {
    var i := FoundSettingIsFirst(env.settings.value, key);
    var k :| FirstWithKey(env.settings.value, key, k) && FitsItsType(env.settings.value[k], value);
    assert k == i;
    assert SettingCalls(env.(request := Some(r)), r)[1] == CallSetSetting(key, value);
  }

  lemma {:induction false} AskedCallsAreServed(c: HookCall, env: Env)
    requires WellShaped(c, env) && Asking(c).Some?
    ensures var (h, r) := Asking(c).value;
            c in BodyCalls(h, env.(request := Some(r)), r)
  {
    if c.CallSetSetting? {
      SettingIsServed(c.key, c.value, env, Asking(c).value.1);
    }
  }

  lemma {:induction false} ShownCallsAreServed(c: HookCall, env: Env)
    requires WellShaped(c, env) && Showing(c).Some?
    ensures c in Calls(Showing(c).value, if c.CallLogs? then env.(level := c.level, limit := Limit(c.limit)) else env)
  {
  }

  /** What a request can change of an Env; what the hooks list and net/url decide stays. */
  ghost predicate SameHooks(env: Env, other: Env) {
    other == env.(request := other.request, level := other.level, limit := other.limit)
  }

  /** Conversely no documented shape is refused: every one can be asked for. */
  lemma {:induction false} WellShapedCallsAreServed(c: HookCall, env: Env) returns (h: Handler, asking: Env)
    requires WellShaped(c, env)
    ensures SameHooks(env, asking) && c in Calls(h, asking)
  {
    if Asking(c).Some? {
      AskedCallsAreServed(c, env);
      h, asking := Asking(c).value.0, env.(request := Some(Asking(c).value.1));
    } else {
      ShownCallsAreServed(c, env);
      h := Showing(c).value;
      asking := if c.CallLogs? then env.(level := c.level, limit := Limit(c.limit)) else env;
    }
  }

  lemma {:induction false} NamesDiffer(a: Cap, b: Cap)
    requires a.Name() == b.Name()
    ensures a == b
  {
    var m, n := a.Name(), b.Name();
    assert |m| == |n| && m[0] == n[0] && m[|m| - 1] == n[|n| - 1] && m[2] == n[2] && m[|m| - 4] == n[|n| - 4];
  }

  lemma {:induction false} GateInterface(h: Handler)
    ensures Asserts(h) == InterfaceOf(GateOf(h))
  {
  }

  /** The two tables agree: a route's capability is advertised for exactly the interface its handler asserts. */
  lemma {:induction false} TablesAgree(h: Handler, c: Cap)
    requires c.Name() == GateOf(h).Name()
    ensures InterfaceOf(c) == Asserts(h)
  {
    NamesDiffer(c, GateOf(h));
    GateInterface(h);
  }

  /** No type assertion on Hooks can fail behind an advertised capability. */
  lemma {:induction false} AssertionsSucceed(hooks: set<Iface>, disabled: seq<string>, h: Handler)
    requires GateOf(h).Name() in Advertised(hooks, disabled)
    ensures Asserts(h) in hooks && GateOf(h).Name() !in disabled
  {
    var name := GateOf(h).Name();
    DetectedExactly(REMOTE_CAPS, hooks, disabled, name);
    var c :| c in REMOTE_CAPS && c.Name() == name && InterfaceOf(c) in hooks;
    TablesAgree(h, c);
  }

  lemma {:induction false} EveryCapIsListed(c: Cap)
    ensures c in REMOTE_CAPS
  {
    var caps := REMOTE_CAPS;
    var i := match c
      case Proxies => 0 case Select => 1 case Unfix => 2 case Delay => 3 case Mode => 4 case Profiles => 5
      case ProfileUpdate => 6 case ProfileDelete => 7 case Providers => 8 case Connections => 9 case Traffic => 10
      case Logs => 11 case Settings => 12 case Actions => 13;
    assert caps[i] == c;
  }

  lemma {:induction false} AdvertisedIsImplemented(hooks: set<Iface>, disabled: seq<string>, c: Cap)
    requires c.Name() in Advertised(hooks, disabled)
    ensures InterfaceOf(c) in hooks && c.Name() !in disabled
  {
    DetectedExactly(REMOTE_CAPS, hooks, disabled, c.Name());
    var d :| d in REMOTE_CAPS && d.Name() == c.Name() && InterfaceOf(d) in hooks;
    NamesDiffer(c, d);
  }

  /** And an implemented capability that is not disabled is advertised. */
  lemma {:induction false} ImplementedIsAdvertised(hooks: set<Iface>, disabled: seq<string>, c: Cap)
    requires InterfaceOf(c) in hooks && c.Name() !in disabled
    ensures c.Name() in Advertised(hooks, disabled)
  {
    EveryCapIsListed(c);
    DetectedExactly(REMOTE_CAPS, hooks, disabled, c.Name());
  }
}
