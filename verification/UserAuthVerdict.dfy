/** Every counted success of a run was earned, and every failure that should count is counted. */
module UserAuthVerdict {
  import opened Basics
  import opened MethodLists
  import opened UserAuth
  import opened UserAuthSafety

  // ---- the methods by name

  /** The method a requested name stands for. */
  function MethodOf(name: string): Option<string> {
    if name == "publickey-hostbound-v00@openssh.com" then Some("publickey")
    else if name in ["none", "publickey", "gssapi-with-mic", "password", "keyboard-interactive", "hostbased"] then Some(name)
    else None
  }

  /** The server option that enables a method; "none" is enabled until it has been tried. */
  function EnabledBy(f: Flags, noneEnabled: bool, meth: string): bool {
    match meth
    case "none" => noneEnabled
    case "publickey" => f.pubkey
    case "gssapi-with-mic" => f.gssapi
    case "password" => f.password
    case "keyboard-interactive" => f.kbdint
    case "hostbased" => f.hostbased
    case _ => false
  }

  lemma {:induction false} ByNameFinds(table: seq<MethodCfg>, name: string, i: nat)
    requires i < |table| && Answers(table[i], name)
    ensures ByName(table, name).Some?
    decreases i
  {
    if i > 0 {
      ByNameFinds(table[1..], name, i - 1);
    }
  }

  /** Each entry of the table answers to its own name, publickey also to its synonym, and is enabled by its own option. */
  lemma EntryIs(f: Flags, noneEnabled: bool, i: nat, name: string)
    requires i < 6
    ensures var m := Table(f, noneEnabled)[i];
      (Answers(m, name) <==> MethodOf(name) == Some(m.name)) && (m.enabled <==> EnabledBy(f, noneEnabled, m.name))
  {
    var m := Table(f, noneEnabled)[i];
    if i == 0 {
      assert m.name == "none";
    } else if i == 1 {
      assert m.name == "publickey";
    } else if i == 2 {
      assert m.name == "gssapi-with-mic";
    } else if i == 3 {
      assert m.name == "password";
    } else if i == 4 {
      assert m.name == "keyboard-interactive";
    } else {
      assert m.name == "hostbased";
    }
  }

  lemma {:induction false} ByNameIs(f: Flags, noneEnabled: bool, name: string)
    ensures var m := ByName(Table(f, noneEnabled), name);
      && (m.Some? <==> MethodOf(name).Some?)
      && (m.Some? ==> m.value.name == MethodOf(name).value && (m.value.enabled <==> EnabledBy(f, noneEnabled, m.value.name)))
  {
    var t := Table(f, noneEnabled);
    var m := ByName(t, name);
    forall i | 0 <= i < 6
      ensures (Answers(t[i], name) <==> MethodOf(name) == Some(t[i].name)) && (t[i].enabled <==> EnabledBy(f, noneEnabled, t[i].name))
      ensures Answers(t[i], name) ==> m.Some?
    {
      EntryIs(f, noneEnabled, i, name);
      if Answers(t[i], name) {
        ByNameFinds(t, name, i);
      }
    }
    if MethodOf(name).Some? {
      var x := MethodOf(name).value;
      assert x == t[0].name || x == t[1].name || x == t[2].name || x == t[3].name || x == t[4].name || x == t[5].name;
    }
  }

  // ---- every success is earned

  /** The checks a public key has to pass, whatever the state of the session. */
  predicate GoodKey(t: Attempt) {
    t.Pubkey? && t.key.Some? && t.certOk && t.hasSig && t.allowed && t.verified && t.detailsOk && t.optionsOk
  }

  /** The method's own verdict on the request was a success. */
  predicate Approved(r: Request, meth: string) {
    match r
    case Userauth(_, _, _, _, attempt, _) =>
      if meth == "publickey" then GoodKey(attempt) else attempt.Other? && attempt.authenticated && !attempt.postponed
    case InfoResponse(_, authenticated, _, _) => authenticated
    case GssapiFinish(authenticated, _) => authenticated
  }

  /** What a request is counted as when it succeeds. */
  function EventOf(r: Request): Option<Event> {
    match r
    case Userauth(_, _, name, _, _, _) => if MethodOf(name).Some? then Some(Event(MethodOf(name).value, None)) else None
    case InfoResponse(device, _, _, _) => Some(Event("keyboard-interactive", Some(if device == Pam then "pam" else "bsdauth")))
    case GssapiFinish(_, _) => Some(Event("gssapi-with-mic", None))
  }

  /** The counted success x belongs to the request r: its method, its key, its verdict, and no root login refused. */
  predicate Earned(r: Request, x: Success) {
    && EventOf(r) == Some(x.event) && Approved(r, x.event.meth) && !r.policy.rootDenied
    && x.key == (if x.event.meth == "publickey" then KeyOf(r) else None)
  }

  /** userauth_finish counts a success only of a valid user whose method has finished, and where root is not refused. */
  lemma FinishAccepts(cfg: Config, a: Auth, authenticated: bool, name: string, sub: Option<string>, p: Policy)
    ensures match UserauthFinish(cfg, a, authenticated, name, sub, p)
      case Stop => true
      case Finished(b, acc) =>
        && b.valid == a.valid
        && (acc.Some? ==> && authenticated && a.valid && !a.postponed && !p.rootDenied && MethodOf(name).Some?
                          && acc.value == Event(MethodOf(name).value, sub))
  {
    ByNameIs(cfg.flags, a.noneEnabled, name);
    var m := ByName(Table(cfg.flags, a.noneEnabled), name);
    if authenticated && a.valid && !a.postponed && m.Some? && !p.rootDenied {
      AcceptedFrame(cfg, a, Event(m.value.name, sub), p);
    }
  }

  lemma CallApproves(a: Auth, m: MethodCfg, t: Attempt)
    requires CallMethod(a, m, t).1 && !CallMethod(a, m, t).0.postponed
    ensures if m.name == "publickey" then GoodKey(t) else t.Other? && t.authenticated && !t.postponed
  {
  }

  lemma TriedApproves(cfg: Config, a: Auth, r: Request)
    requires r.Userauth? && Tried(cfg, a, r).1 && !Tried(cfg, a, r).0.postponed
    ensures MethodOf(r.name).Some? && Approved(r, MethodOf(r.name).value)
  {
    var b := a.(postponed := false, serverFailure := false);
    ByNameIs(cfg.flags, b.noneEnabled, r.name);
    CallApproves(b, Lookup(cfg, b, r.name).value, r.attempt);
  }

  predicate SameUser(a: Auth, b: Auth) {
    b.valid == a.valid && b.attempt == a.attempt && b.failures == a.failures && b.lists == a.lists && b.success == a.success
  }

  lemma PubkeyKeepsUser(a: Auth, t: Attempt)
    requires t.Pubkey?
    ensures SameUser(a, UserauthPubkey(a, t).0)
  {
  }

  lemma CallKeepsUser(a: Auth, m: MethodCfg, t: Attempt)
    ensures SameUser(a, CallMethod(a, m, t).0)
  {
    var b := if m.name == "none" then a.(noneEnabled := false) else a;
    if m.name == "publickey" && t.Pubkey? {
      PubkeyKeepsUser(b, t);
    }
  }

  lemma TriedKeepsUser(cfg: Config, a: Auth, r: Request)
    requires r.Userauth?
    ensures SameUser(a, Tried(cfg, a, r).0)
  {
    var b := a.(postponed := false, serverFailure := false);
    var m := Lookup(cfg, b, r.name);
    if m.Some? && b.failures < cfg.maxTries {
      CallKeepsUser(b, m.value, r.attempt);
    }
  }

  /** One request adds at most one success, earned by it, and then the user is a valid one. */
  predicate OneEarned(s: Session, r: Request, t: Session) {
    && (|| t.log == s.log
        || (t.auth.valid && |t.log| == |s.log| + 1 && t.log == s.log + [t.log[|s.log|]] && Earned(r, t.log[|s.log|])))
    && (s.auth.attempt > 0 ==> t.auth.attempt > 0 && t.auth.valid == s.auth.valid)
  }

  lemma EarnedAfter(s: Session, r: Request, f: Finish, t: Session)
    requires f.Finished? && t == After(s, r, f) && (s.auth.attempt > 0 ==> f.auth.attempt > 0 && f.auth.valid == s.auth.valid)
    requires f.accepted.Some? ==> f.auth.valid && Some(f.accepted.value) == EventOf(r) && Approved(r, f.accepted.value.meth)
                                  && !r.policy.rootDenied
    ensures OneEarned(s, r, t)
  {
    if f.accepted.Some? {
      var x := Success(f.accepted.value, if f.accepted.value.meth == "publickey" then KeyOf(r) else None);
      assert t.log == s.log + [x] && Earned(r, x);
    }
  }

  lemma UserauthEarned(cfg: Config, s: Session, r: Request)
    requires !s.auth.success && r.Userauth? && Handle(cfg, s.auth, r).Finished?
    ensures OneEarned(s, r, After(s, r, Handle(cfg, s.auth, r)))
  {
    var b := Admit(cfg, s.auth, r).value;
    var (c, ok) := Tried(cfg, b, r);
    TriedKeepsUser(cfg, b, r);
    FinishAccepts(cfg, c, ok, r.name, None, r.policy);
    FinishFrame(cfg, c, ok, r.name, None, r.policy);
    var f := Handle(cfg, s.auth, r);
    if f.accepted.Some? {
      TriedApproves(cfg, b, r);
    }
    EarnedAfter(s, r, f, After(s, r, f));
  }

  lemma LaterIs()
    ensures MethodOf("keyboard-interactive") == Some("keyboard-interactive") && MethodOf("gssapi-with-mic") == Some("gssapi-with-mic")
  {
  }

  lemma ExchangeEarned(cfg: Config, s: Session, r: Request)
    requires !s.auth.success && !r.Userauth? && s.auth.postponed && Handle(cfg, s.auth, r).Finished?
    ensures OneEarned(s, r, After(s, r, Handle(cfg, s.auth, r)))
  {
    LaterIs();
    var f := Handle(cfg, s.auth, r);
    match r {
      case InfoResponse(d, ok, again, p) =>
        FinishAccepts(cfg, s.auth.(postponed := again && !ok), ok && s.auth.valid, "keyboard-interactive", Some(DeviceName(d)), p);
        FinishFrame(cfg, s.auth.(postponed := again && !ok), ok && s.auth.valid, "keyboard-interactive", Some(DeviceName(d)), p);
      case GssapiFinish(ok, p) =>
        FinishAccepts(cfg, s.auth.(postponed := false), ok, "gssapi-with-mic", None, p);
        FinishFrame(cfg, s.auth.(postponed := false), ok, "gssapi-with-mic", None, p);
    }
    EarnedAfter(s, r, f, After(s, r, f));
  }

  lemma StepEarned(cfg: Config, s: Session, r: Request)
    requires Step(cfg, s, r).Running?
    ensures OneEarned(s, r, Step(cfg, s, r).session)
  {
    if !s.auth.success {
      StepIsAfter(cfg, s, r);
      if r.Userauth? {
        UserauthEarned(cfg, s, r);
      } else if s.auth.postponed {
        ExchangeEarned(cfg, s, r);
      }
    }
  }

  /** `at` names, for each success in the log, the request that earned it, each later than the one before. */
  predicate EarnedBy(log: seq<Success>, rs: seq<Request>, at: seq<nat>) {
    && |at| == |log|
    && (forall i :: 0 <= i < |at| ==> at[i] < |rs| && Earned(rs[at[i]], log[i]))
    && (forall i, j :: 0 <= i < j < |at| ==> at[i] < at[j])
  }

  lemma EarnedNext(log: seq<Success>, rs: seq<Request>, at: seq<nat>, r: Request, x: Success)
    requires EarnedBy(log, rs, at) && Earned(r, x)
    ensures EarnedBy(log + [x], rs + [r], at + [|rs|])
  {
    forall i | 0 <= i < |at + [|rs|]| ensures (at + [|rs|])[i] < |rs + [r]| && Earned((rs + [r])[(at + [|rs|])[i]], (log + [x])[i]) {
    }
  }

  lemma EarnedStill(log: seq<Success>, rs: seq<Request>, at: seq<nat>, r: Request)
    requires EarnedBy(log, rs, at)
    ensures EarnedBy(log, rs + [r], at)
  {
    forall i | 0 <= i < |at| ensures at[i] < |rs + [r]| && Earned((rs + [r])[at[i]], log[i]) {
    }
  }

  /** So far every success is earned, and there is one only if the user is valid. */
  predicate AllEarned(s: Session, done: seq<Request>, at: seq<nat>) {
    EarnedBy(s.log, done, at) && (s.log != [] ==> s.auth.attempt > 0 && s.auth.valid)
  }

  lemma EarnedStep(s: Session, done: seq<Request>, at: seq<nat>, r: Request, t: Session) returns (next: seq<nat>)
    requires AllEarned(s, done, at) && OneEarned(s, r, t) && (t.log != [] ==> t.auth.attempt > 0)
    ensures AllEarned(t, done + [r], next)
  {
    if t.log == s.log {
      EarnedStill(s.log, done, at, r);
      next := at;
    } else {
      EarnedNext(s.log, done, at, r, t.log[|s.log|]);
      next := at + [|done|];
    }
  }

  lemma {:induction false} RunEarned(cfg: Config, s: Session, done: seq<Request>, rs: seq<Request>, at: seq<nat>) returns (to: seq<nat>)
    requires Inv(cfg, s) && AllEarned(s, done, at) && Run(cfg, s, rs).Running?
    ensures AllEarned(Run(cfg, s, rs).session, done + rs, to)
    decreases rs
  {
    if rs == [] {
      assert done + rs == done;
      to := at;
    } else {
      var t := Step(cfg, s, rs[0]).session;
      StepEarned(cfg, s, rs[0]);
      KeepStep(cfg, s, rs[0]);
      var next := EarnedStep(s, done, at, rs[0], t);
      to := RunEarned(cfg, t, done + [rs[0]], rs[1..], next);
      Regroup(done, rs);
    }
  }

  lemma Regroup(done: seq<Request>, rs: seq<Request>)
    requires rs != []
    ensures done + [rs[0]] + rs[1..] == done + rs
  {
  }

  /**
   In every run each counted success belongs to a request of its own, in order. A publickey success belongs to one
   that carried a signature that verified, by the key in the log, with every other check passed; any other to one whose
   method or exchange said yes. None is counted for an invalid user or where a root login is refused.
   */
  lemma SuccessesAreEarned(cfg: Config, rs: seq<Request>) returns (at: seq<nat>)
    requires Run(cfg, Start, rs).Running?
    ensures var s := Run(cfg, Start, rs).session; EarnedBy(s.log, rs, at) && (s.log != [] ==> s.auth.valid)
  {
    StartInv(cfg);
    at := RunEarned(cfg, Start, [], rs, []);
    assert [] + rs == rs;
  }

  // ---- every failure counts

  /**
   The request has failed and counts as a failure: nothing was accepted, nothing is pending, the failure was not the
   server's own, and it was not "none" as the first request. An answer to no exchange is no failure.
   */
  predicate Fails(s: Session, r: Request, t: Session) {
    && t.log == s.log && !t.auth.postponed && !t.auth.serverFailure
    && (if r.Userauth? then s.auth.attempt > 0 || r.name != "none" else s.auth.postponed)
  }

  /** How many requests of the run from s fail and count. */
  function Failures(cfg: Config, s: Session, rs: seq<Request>): nat
    decreases rs
  {
    if rs == [] || s.auth.success then 0
    else match Step(cfg, s, rs[0])
      case Stopped => 0
      case Running(t) => (if Fails(s, rs[0], t) then 1 else 0) + Failures(cfg, t, rs[1..])
  }

  lemma NoneIsNone(name: string)
    requires MethodOf(name).Some?
    ensures MethodOf(name).value == "none" <==> name == "none"
  {
  }

  /** userauth_finish counts one failure if nothing is accepted or pending, and none otherwise. */
  lemma FinishCounts(cfg: Config, a: Auth, authenticated: bool, name: string, sub: Option<string>, p: Policy)
    ensures match UserauthFinish(cfg, a, authenticated, name, sub, p)
      case Stop => true
      case Finished(b, acc) =>
        && b.postponed == a.postponed && b.serverFailure == a.serverFailure
        && b.failures == a.failures + if acc.None? && !a.postponed && !a.serverFailure && (a.attempt > 1 || name != "none") then 1 else 0
  {
    ByNameIs(cfg.flags, a.noneEnabled, name);
    var m := ByName(Table(cfg.flags, a.noneEnabled), name);
    if m.Some? {
      NoneIsNone(name);
      AcceptedCounts(cfg, a, Event(m.value.name, sub), p);
    }
  }

  lemma AcceptedCounts(cfg: Config, a: Auth, e: Event, p: Policy)
    ensures match Accepted(cfg, a, e, p)
      case Stop => true
      case Finished(b, acc) =>
        acc.Some? && b.failures == a.failures && b.postponed == a.postponed && b.serverFailure == a.serverFailure
  {
  }

  lemma UserauthFails(cfg: Config, s: Session, r: Request)
    requires Inv(cfg, s) && !s.auth.success && r.Userauth? && Handle(cfg, s.auth, r).Finished?
    ensures var t := After(s, r, Handle(cfg, s.auth, r)); t.auth.failures == s.auth.failures + if Fails(s, r, t) then 1 else 0
  {
    Admitted(cfg, s, r);
    var b := Admit(cfg, s.auth, r).value;
    TriedKeepsUser(cfg, b, r);
    var (c, ok) := Tried(cfg, b, r);
    FinishCounts(cfg, c, ok, r.name, None, r.policy);
  }

  lemma ExchangeFails(cfg: Config, s: Session, r: Request)
    requires !s.auth.success && !r.Userauth? && Handle(cfg, s.auth, r).Finished?
    ensures var t := After(s, r, Handle(cfg, s.auth, r)); t.auth.failures == s.auth.failures + if Fails(s, r, t) then 1 else 0
  {
    match r
    case InfoResponse(d, ok, again, p) =>
      FinishCounts(cfg, s.auth.(postponed := again && !ok), ok && s.auth.valid, "keyboard-interactive", Some(DeviceName(d)), p);
    case GssapiFinish(ok, p) =>
      FinishCounts(cfg, s.auth.(postponed := false), ok, "gssapi-with-mic", None, p);
  }

  lemma StepFails(cfg: Config, s: Session, r: Request)
    requires Inv(cfg, s) && !s.auth.success && Step(cfg, s, r).Running?
    ensures var t := Step(cfg, s, r).session; t.auth.failures == s.auth.failures + if Fails(s, r, t) then 1 else 0
  {
    StepIsAfter(cfg, s, r);
    if r.Userauth? {
      UserauthFails(cfg, s, r);
    } else {
      ExchangeFails(cfg, s, r);
    }
  }

  lemma {:induction false} RunFails(cfg: Config, s: Session, rs: seq<Request>)
    requires Inv(cfg, s) && Run(cfg, s, rs).Running?
    ensures Run(cfg, s, rs).session.auth.failures == s.auth.failures + Failures(cfg, s, rs)
    decreases rs
  {
    if s.auth.success {
      SuccessStays(cfg, s, rs);
    } else if rs != [] {
      StepFails(cfg, s, rs[0]);
      KeepStep(cfg, s, rs[0]);
      RunFails(cfg, Step(cfg, s, rs[0]).session, rs[1..]);
    }
  }

  /** The failure count of every run is the number of its requests that failed and count. */
  lemma FailuresAreCounted(cfg: Config, rs: seq<Request>)
    requires Run(cfg, Start, rs).Running?
    ensures Run(cfg, Start, rs).session.auth.failures == Failures(cfg, Start, rs)
  {
    StartInv(cfg);
    RunFails(cfg, Start, rs);
  }

  // ---- which lists are usable

  /** A token names a known method by its own name, before any colon, and one that is enabled if need be. */
  predicate Usable(f: Flags, noneEnabled: bool, token: string, needEnable: bool) {
    MethodOf(Base(token)) == Some(Base(token)) && (needEnable ==> EnabledBy(f, noneEnabled, Base(token)))
  }

  lemma ListedIs(f: Flags, noneEnabled: bool, name: string, needEnable: bool)
    ensures Listed(Table(f, noneEnabled), name, needEnable)
       <==> MethodOf(name) == Some(name) && (needEnable ==> EnabledBy(f, noneEnabled, name))
  {
    var t := Table(f, noneEnabled);
    forall i | 0 <= i < 6 ensures t[i].name == name ==> MethodOf(name) == Some(name) && (t[i].enabled <==> EnabledBy(f, noneEnabled, name)) {
      EntryIs(f, noneEnabled, i, name);
    }
    if MethodOf(name) == Some(name) {
      assert name == t[0].name || name == t[1].name || name == t[2].name || name == t[3].name || name == t[4].name || name == t[5].name;
      var i :| 0 <= i < 6 && t[i].name == name;
      var k := FirstOf(t, name, i);
    }
  }

  lemma {:induction false} FirstOf(t: seq<MethodCfg>, name: string, i: nat) returns (k: nat)
    requires i < |t| && t[i].name == name
    ensures k < |t| && FirstNamed(t, name, k)
    decreases i
  {
    if j :| 0 <= j < i && t[j].name == name {
      k := FirstOf(t, name, j);
    } else {
      k := i;
    }
  }

  /** A list is valid exactly if every token of it is usable. */
  lemma MethodsValidIff(f: Flags, noneEnabled: bool, methods: string, needEnable: bool)
    ensures MethodsValid(methods, Table(f, noneEnabled), needEnable)
       <==> forall t :: t in Tokens(methods) ==> Usable(f, noneEnabled, t, needEnable)
  {
    forall t | t in Tokens(methods) ensures Listed(Table(f, noneEnabled), Base(t), needEnable) <==> Usable(f, noneEnabled, t, needEnable) {
      ListedIs(f, noneEnabled, Base(t), needEnable);
    }
    if methods == "" {
      assert Tokens("") == [""] && Base("") == "";
    }
  }

  /** Configurations that differ at most in how they say that there are no lists. */
  predicate Alike(c: Config, d: Config) { Lists(c) == Lists(d) && c.flags == d.flags && c.maxTries == d.maxTries }

  lemma AdmitAlike(c: Config, d: Config, a: Auth, r: Request)
    requires Alike(c, d) && r.Userauth?
    ensures Admit(c, a, r) == Admit(d, a, r)
  {
  }

  lemma TriedAlike(c: Config, d: Config, a: Auth, r: Request)
    requires Alike(c, d) && r.Userauth?
    ensures Tried(c, a, r) == Tried(d, a, r)
  {
    assert Lookup(c, a.(postponed := false, serverFailure := false), r.name)
        == Lookup(d, a.(postponed := false, serverFailure := false), r.name);
  }

  lemma FinishAlike(c: Config, d: Config, a: Auth, yes: bool, name: string, sub: Option<string>, p: Policy)
    requires Alike(c, d)
    ensures UserauthFinish(c, a, yes, name, sub, p) == UserauthFinish(d, a, yes, name, sub, p)
  {
  }

  lemma HandleAlike(c: Config, d: Config, a: Auth, r: Request)
    requires Alike(c, d)
    ensures Handle(c, a, r) == Handle(d, a, r)
  {
    match r
    case Userauth(_, _, name, _, _, p) =>
      AdmitAlike(c, d, a, r);
      if Admit(c, a, r).Some? {
        var b := Admit(c, a, r).value;
        TriedAlike(c, d, b, r);
        FinishAlike(c, d, Tried(c, b, r).0, Tried(c, b, r).1, name, None, p);
      }
    case InfoResponse(v, ok, again, p) =>
      FinishAlike(c, d, a.(postponed := again && !ok), ok && a.valid, "keyboard-interactive", Some(DeviceName(v)), p);
    case GssapiFinish(ok, p) =>
      FinishAlike(c, d, a.(postponed := false), ok, "gssapi-with-mic", None, p);
  }

  lemma StepAlike(c: Config, d: Config, s: Session, r: Request)
    requires Alike(c, d)
    ensures Step(c, s, r) == Step(d, s, r)
  {
    HandleAlike(c, d, s.auth, r);
  }

  /** The lone list "any" is the same as no list, in every run. */
  lemma {:induction false} AnyIsNone(cfg: Config, s: Session, rs: seq<Request>)
    ensures Run(cfg.(lists := ["any"]), s, rs) == Run(cfg.(lists := []), s, rs)
    decreases rs
  {
    if rs != [] {
      var c, d := cfg.(lists := ["any"]), cfg.(lists := []);
      StepAlike(c, d, s, rs[0]);
      if Step(c, s, rs[0]).Running? {
        AnyIsNone(cfg, Step(c, s, rs[0]).session, rs[1..]);
      }
    }
  }
}
