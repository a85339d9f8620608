/**
 Server side of user authentication (auth2.c, auth2-methods.c, auth2-pubkey.c) as a state machine over
 requests. The methods themselves are oracles; which of their answers count, and in what order, is not.
 */
module UserAuth {
  import opened Basics
  import opened MethodLists

  // ---- configuration

  type CString = s: string | '\0' !in s

  datatype MethodCfg = MethodCfg(name: string, synonym: Option<string>, enabled: bool)

  datatype Flags = Flags(pubkey: bool, gssapi: bool, password: bool, kbdint: bool, hostbased: bool)

  /** ServerOptions: the AuthenticationMethods lists, the enabled methods and MaxAuthTries. */
  datatype Config = Config(lists: seq<CString>, flags: Flags, maxTries: nat)

  /** authmethod_cfgs; "none" starts out enabled and is cleared by userauth_none. */
  function Table(f: Flags, noneEnabled: bool): seq<MethodCfg> {
    [MethodCfg("none", None, noneEnabled),
     MethodCfg("publickey", Some("publickey-hostbound-v00@openssh.com"), f.pubkey),
     MethodCfg("gssapi-with-mic", None, f.gssapi),
     MethodCfg("password", None, f.password),
     MethodCfg("keyboard-interactive", None, f.kbdint),
     MethodCfg("hostbased", None, f.hostbased)]
  }

  /** The first table entry of that name exists and, if need be, is enabled. */
  predicate Listed(table: seq<MethodCfg>, name: string, needEnable: bool) {
    exists i :: 0 <= i < |table| && FirstNamed(table, name, i) && (needEnable ==> table[i].enabled)
  }

  predicate FirstNamed(table: seq<MethodCfg>, name: string, i: nat)
    requires i < |table|
  {
    table[i].name == name && forall j :: 0 <= j < i ==> table[j].name != name
  }

  /** The method name of a token, without its submethod. */
  function Base(token: string): string { token[..Span(token, ':')] }

  predicate ValidTokens(ts: seq<string>, table: seq<MethodCfg>, needEnable: bool) {
    forall t :: t in ts ==> Listed(table, Base(t), needEnable)
  }

  /** auth2_methods_valid */
  predicate MethodsValid(methods: string, table: seq<MethodCfg>, needEnable: bool) {
    methods != "" && ValidTokens(Tokens(methods), table, needEnable)
  }

  /** The tokens strsep has not yet returned. */
  function TokensLeft(rest: Option<string>): seq<string> {
    if rest.None? then [] else Tokens(rest.value)
  }

  /** What strsep leaves behind. */
  function AfterToken(s: string): Option<string> {
    var n := Span(s, ',');
    if n == |s| then None else Some(s[n + 1..])
  }

  lemma CutToken(s: string, table: seq<MethodCfg>, needEnable: bool)
    ensures ValidTokens(Tokens(s), table, needEnable)
       <==> Listed(table, Base(Head(s)), needEnable) && ValidTokens(TokensLeft(AfterToken(s)), table, needEnable)
  {
    assert s[..|s|] == s;
    assert Tokens(s) == [Head(s)] + TokensLeft(AfterToken(s));
    assert Head(s) in Tokens(s);
    assert forall t :: t in Tokens(s) <==> t == Head(s) || t in TokensLeft(AfterToken(s));
  }

  /** The inner loop of auth2_methods_valid. */
  method CheckListed(table: seq<MethodCfg>, name: string, needEnable: bool) returns (found: bool)
    ensures found <==> Listed(table, name, needEnable)
  {
    for i := 0 to |table|
      invariant forall j :: 0 <= j < i ==> table[j].name != name
    {
      if table[i].name == name {
        assert FirstNamed(table, name, i);
        return !needEnable || table[i].enabled;
      }
    }
    return false;
  }

  method CheckMethodsValid(methods: string, table: seq<MethodCfg>, needEnable: bool) returns (ok: bool)
    ensures ok <==> MethodsValid(methods, table, needEnable)
  {
    if methods == "" {
      return false;
    }
    var rest: Option<string> := Some(methods);
    while rest.Some?
      invariant ValidTokens(Tokens(methods), table, needEnable) <==> ValidTokens(TokensLeft(rest), table, needEnable)
      decreases if rest.Some? then 1 + |rest.value| else 0
    {
      CutToken(rest.value, table, needEnable);
      var token := Head(rest.value);
      rest := AfterToken(rest.value);
      var found := CheckListed(table, Base(token), needEnable);
      if !found {
        return false;
      }
    }
    return true;
  }

  // ---- state

  /** Public key material and the certificate around it; sshkey_equal_public compares the former. */
  datatype Key = Key(public: nat, cert: Option<nat>)

  predicate EqualPublic(k: Key, l: Key) { k.public == l.public }

  datatype Auth = Auth(
    user: string, service: string, valid: bool,
    attempt: nat, failures: nat, success: bool, postponed: bool, serverFailure: bool,
    noneEnabled: bool,
    lists: seq<CString>,   // auth_methods
    prevKeys: seq<Key>)

  const Fresh := Auth("", "", false, 0, 0, false, false, false, true, [], [])

  /** The configured lists once the lone pseudo-list "any" has been normalised away. */
  function Lists(cfg: Config): seq<CString> { if cfg.lists == ["any"] then [] else cfg.lists }

  function Enabled(ls: seq<CString>, table: seq<MethodCfg>): (vs: seq<CString>)
    ensures forall l :: l in vs ==> l in ls && MethodsValid(l, table, true)
  {
    if ls == [] then []
    else (if MethodsValid(ls[0], table, true) then [ls[0]] else []) + Enabled(ls[1..], table)
  }

  /** The lists auth2_setup_methods_lists keeps. */
  function ValidLists(cfg: Config): (vs: seq<CString>)
    ensures forall l :: l in vs ==> l in Lists(cfg) && MethodsValid(l, Table(cfg.flags, true), true)
  {
    Enabled(Lists(cfg), Table(cfg.flags, true))
  }

  // ---- method lookup

  predicate Answers(m: MethodCfg, name: string) { name == m.name || m.synonym == Some(name) }

  /** authmethod_byname */
  function ByName(table: seq<MethodCfg>, name: string): (m: Option<MethodCfg>)
    ensures m.Some? ==> m.value in table && Answers(m.value, name)
  {
    if table == [] then None else if Answers(table[0], name) then Some(table[0]) else ByName(table[1..], name)
  }

  /** auth2_method_allowed */
  predicate Allowed(cfg: Config, lists: seq<CString>, meth: string, sub: Option<string>) {
    Lists(cfg) == [] || exists i :: 0 <= i < |lists| && ListStartsWith(lists[i], meth, sub) != MatchNone
  }

  /** authmethod_lookup */
  function Lookup(cfg: Config, a: Auth, name: string): Option<MethodCfg> {
    var m := ByName(Table(cfg.flags, a.noneEnabled), name);
    if m.Some? && m.value.enabled && Allowed(cfg, a.lists, m.value.name, None) then m else None
  }

  // ---- auth2_update_methods_lists

  /** Either some list is complete, or the search ended having found the method in some list or in none. */
  datatype Update = Complete(lists: seq<CString>) | Remaining(lists: seq<CString>, found: bool)

  function UpdateLists(lists: seq<CString>, i: nat, e: Event): Update
    requires i <= |lists|
    decreases |lists| - i
  {
    if i == |lists| then Remaining(lists, false)
    else
      var r := RemoveMethod(lists[i], e.meth, e.sub);
      var lists' := if r.Some? then lists[i := r.value] else lists;
      if r == Some("") then Complete(lists')
      else
        var u := UpdateLists(lists', i + 1, e);
        if u.Remaining? && r.Some? then u.(found := true) else u
  }

  // ---- userauth_finish

  /** What the environment decides: root logins refused for this method, the account refused by PAM. */
  datatype Policy = Policy(rootDenied: bool, pamDenied: bool)

  /** `accepted` is the success that was counted; the connection is over after Stop. */
  datatype Finish = Finished(auth: Auth, accepted: Option<Event>) | Stop

  function CountFailure(cfg: Config, a: Auth, partial: bool, meth: string): Finish {
    var n := if !partial && !a.serverFailure && (a.attempt > 1 || meth != "none") then a.failures + 1 else a.failures;
    if n >= cfg.maxTries then Stop else Finished(a.(failures := n), None)
  }

  function Succeed(a: Auth, e: Event, p: Policy): Finish {
    if p.pamDenied then Stop else Finished(a.(success := true), Some(e))
  }

  /** A success that counts: it completes a list, or is a step towards one, or no list is configured. */
  function Accepted(cfg: Config, a: Auth, e: Event, p: Policy): Finish {
    if Lists(cfg) == [] then Succeed(a, e, p)
    else match UpdateLists(a.lists, 0, e)
      case Complete(ls) => Succeed(a.(lists := ls), e, p)
      case Remaining(ls, found) =>
        if !found then Stop
        else match CountFailure(cfg, a.(lists := ls), true, e.meth)
          case Stop => Stop
          case Finished(b, _) => Finished(b, Some(e))
  }

  function UserauthFinish(cfg: Config, a: Auth, authenticated: bool, name: string, sub: Option<string>, p: Policy): Finish {
    var m := ByName(Table(cfg.flags, a.noneEnabled), name);
    if authenticated && (!a.valid || a.postponed || m.None?) then Stop
    else if authenticated && !p.rootDenied then Accepted(cfg, a, Event(m.value.name, sub), p)
    else if a.postponed then Finished(a, None)
    else CountFailure(cfg, a, false, if authenticated then m.value.name else name)
  }

  // ---- the methods

  /** What a method's own checks come to. */
  datatype Attempt =
    | Pubkey(key: Option<Key>,       // None if the algorithm or the blob is refused
             certOk: bool,           // certificate signature type and RSA length
             hasSig: bool,
             allowed: bool, verified: bool,
             detailsOk: bool,        // user presence and verification of a security key
             optionsOk: bool)        // auth_activate_options
    | Other(authenticated: bool, postponed: bool, serverFailure: bool)

  predicate KeyUsed(keys: seq<Key>, k: Key) { exists i :: 0 <= i < |keys| && EqualPublic(k, keys[i]) }

  /** userauth_pubkey: reuse check, verification, recording, options, in that order */
  function UserauthPubkey(a: Auth, t: Attempt): (Auth, bool)
    requires t.Pubkey?
  {
    if t.key.None? || KeyUsed(a.prevKeys, t.key.value) || !t.certOk || !a.valid then (a, false)
    else if !t.hasSig then (a.(postponed := a.postponed || t.allowed), false)
    else if !(t.allowed && t.verified && t.detailsOk) then (a, false)
    else (a.(prevKeys := a.prevKeys + [t.key.value]), t.optionsOk)
  }

  /** m->userauth: an attempt of the wrong shape for the method cannot arise and authenticates nobody. */
  function CallMethod(a: Auth, m: MethodCfg, t: Attempt): (Auth, bool) {
    var b := if m.name == "none" then a.(noneEnabled := false) else a;
    if m.name == "publickey" then
      if t.Pubkey? then UserauthPubkey(b, t) else (b, false)
    else
      if t.Other? then (b.(postponed := b.postponed || t.postponed, serverFailure := b.serverFailure || t.serverFailure), t.authenticated) else (b, false)
  }

  // ---- requests

  datatype Device = Pam | BsdAuth

  function DeviceName(d: Device): string { match d case Pam => "pam" case BsdAuth => "bsdauth" }

  datatype Request =
    | Userauth(user: string, service: string, name: string, userOk: bool, attempt: Attempt, policy: Policy)
    | InfoResponse(device: Device, authenticated: bool, again: bool, policy: Policy)   // keyboard-interactive
    | GssapiFinish(authenticated: bool, policy: Policy)

  /** First request: fix the user and set up the lists. */
  function Begin(cfg: Config, a: Auth, user: string, service: string, userOk: bool): Option<Auth> {
    var b := a.(user := user, service := service, valid := userOk && service == "ssh-connection",
                lists := if Lists(cfg) == [] then a.lists else ValidLists(cfg));
    if Lists(cfg) != [] && b.lists == [] then None else Some(b)
  }

  /** input_userauth_request up to the call of the method. */
  function Admit(cfg: Config, a: Auth, r: Request): Option<Auth>
    requires r.Userauth?
  {
    if a.attempt >= 1024 then None
    else
      var b := a.(attempt := a.attempt + 1);
      if a.attempt == 0 then Begin(cfg, b, r.user, r.service, r.userOk)
      else if r.user != a.user || r.service != a.service then None
      else Some(b)
  }

  /** The state and answer of the requested method, if it is one that may be tried. */
  function Tried(cfg: Config, a: Auth, r: Request): (Auth, bool)
    requires r.Userauth?
  {
    var b := a.(postponed := false, serverFailure := false);
    var m := Lookup(cfg, b, r.name);
    if m.Some? && b.failures < cfg.maxTries then CallMethod(b, m.value, r.attempt) else (b, false)
  }

  function Handle(cfg: Config, a: Auth, r: Request): Finish {
    match r
    case Userauth(_, _, name, _, _, policy) =>
      (match Admit(cfg, a, r)
       case None => Stop
       case Some(b) =>
         var (c, authenticated) := Tried(cfg, b, r);
         UserauthFinish(cfg, c, authenticated, name, None, policy))
    case InfoResponse(device, authenticated, again, policy) =>
      if !a.postponed then Finished(a, None)
      else UserauthFinish(cfg, a.(postponed := again && !authenticated), authenticated && a.valid,
                          "keyboard-interactive", Some(DeviceName(device)), policy)
    case GssapiFinish(authenticated, policy) =>
      if !a.postponed then Finished(a, None)
      else UserauthFinish(cfg, a.(postponed := false), authenticated, "gssapi-with-mic", None, policy)
  }
}
