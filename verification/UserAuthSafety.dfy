/** Safety of whole authentication runs. */
module UserAuthSafety {
  import opened Basics
  import opened MethodLists
  import opened UserAuth

  /** An accepted success, with the public key it used if it was one. */
  datatype Success = Success(event: Event, key: Option<Key>)

  datatype Session = Session(auth: Auth, log: seq<Success>)

  datatype Outcome = Running(session: Session) | Stopped

  function Events(log: seq<Success>): seq<Event> { seq(|log|, i requires 0 <= i < |log| => log[i].event) }

  function KeyOf(r: Request): Option<Key> {
    if r.Userauth? && r.attempt.Pubkey? then r.attempt.key else None
  }

  function Step(cfg: Config, s: Session, r: Request): Outcome {
    if s.auth.success then Running(s)
    else match Handle(cfg, s.auth, r)
      case Stop => Stopped
      case Finished(a, None) => Running(Session(a, s.log))
      case Finished(a, Some(e)) =>
        Running(Session(a, s.log + [Success(e, if e.meth == "publickey" then KeyOf(r) else None)]))
  }

  function Run(cfg: Config, s: Session, rs: seq<Request>): Outcome
    decreases rs
  {
    if rs == [] then Running(s)
    else match Step(cfg, s, rs[0])
      case Stopped => Stopped
      case Running(t) => Run(cfg, t, rs[1..])
  }

  // ---- the invariant

  /** The stored string of one list agrees with the successes so far, and the list is not used up. */
  predicate Agrees(l: CString, s: CString, es: seq<Event>) {
    Residual(Tokens(l), es) != [] && s == Join(Residual(Tokens(l), es))
  }

  /** Every stored string is the greedy residual of its configured list, and no list is used up. */
  predicate ListsAgree(valid: seq<CString>, lists: seq<CString>, es: seq<Event>) {
    && |lists| == |valid|
    && forall i :: 0 <= i < |lists| ==> Agrees(valid[i], lists[i], es)
  }

  /** The last success completed a list that was still open before it. */
  predicate Completed(list: CString, es: seq<Event>) {
    es != [] && Residual(Tokens(list), es) == [] && Residual(Tokens(list), es[..|es| - 1]) != []
  }

  predicate DistinctKeys(keys: seq<Key>) {
    forall i, j :: 0 <= i < j < |keys| ==> !EqualPublic(keys[i], keys[j])
  }

  /** Every publickey success used a recorded key, and no two of them the same public key. */
  predicate KeysOk(log: seq<Success>, keys: seq<Key>) {
    && (forall i :: 0 <= i < |log| && log[i].event.meth == "publickey" ==> log[i].key.Some? && KeyUsed(keys, log[i].key.value))
    && (forall i, j :: 0 <= i < j < |log| && log[i].event.meth == "publickey" && log[j].event.meth == "publickey"
          ==> !EqualPublic(log[i].key.value, log[j].key.value))
  }

  predicate ListPart(cfg: Config, a: Auth, es: seq<Event>) {
    && (!a.success && Lists(cfg) != [] ==> ListsAgree(ValidLists(cfg), a.lists, es))
    && (a.success && Lists(cfg) != [] ==> exists l :: l in ValidLists(cfg) && Completed(l, es))
  }

  ghost predicate Inv(cfg: Config, s: Session) {
    var a := s.auth;
    && a.attempt <= 1024
    && (a.attempt == 0 ==> a == Fresh && s.log == [])
    && (a.attempt > 0 && !a.success ==> a.failures < cfg.maxTries)
    && DistinctKeys(a.prevKeys) && KeysOk(s.log, a.prevKeys)
    && (a.attempt > 0 ==> ListPart(cfg, a, Events(s.log)))
  }

  // ---- lists

  predicate Proper(ts: seq<string>) { forall t :: t in ts ==> t != "" && ',' !in t }

  lemma JoinEmptyIff(ts: seq<string>)
    requires Proper(ts)
    ensures Join(ts) == "" <==> ts == []
  {
    if |ts| == 1 {
      assert ts[0] in ts;
    }
  }

  lemma HeadTailOfJoin(ts: seq<string>)
    requires ts != [] && Proper(ts)
    ensures Head(Join(ts)) == ts[0] && Tail(Join(ts)) == Join(ts[1..])
  {
    var s, n := Join(ts), |ts[0]|;
    assert ts[0] in ts;
    if |ts| == 1 {
      assert s[..n] == ts[0];
    } else {
      assert s[..n] == ts[0] && s[n] == ',' && s[n + 1..] == Join(ts[1..]);
    }
    SpanUnique(s, ',', n);
  }

  lemma ResidualStep(ts: seq<string>, es: seq<Event>, e: Event)
    ensures var rs := Residual(ts, es);
      Residual(ts, es + [e]) == if rs != [] && Matches(rs[0], e) then rs[1..] else rs
  {
    assert (es + [e])[..|es|] == es;
  }

  lemma ResidualProper(ts: seq<string>, es: seq<Event>)
    requires Proper(ts)
    ensures Proper(Residual(ts, es)) && (Residual(ts, es) != [] ==> Proper(Residual(ts, es)[1..]))
  {
    ResidualIsSuffix(ts, es);
    var rs := Residual(ts, es);
    assert rs != [] ==> forall t :: t in rs[1..] ==> t in rs;
  }

  /** remove_method on a stored residual is one step of the greedy residual. */
  lemma StoredStep(ts: seq<string>, s: CString, es: seq<Event>, e: Event)
    requires Proper(ts) && WellNamed(e) && Residual(ts, es) != [] && s == Join(Residual(ts, es))
    ensures var r := RemoveMethod(s, e.meth, e.sub); var rs := Residual(ts, es + [e]);
      (if r.None? then s else r.value) == Join(rs) && (rs == [] <==> r == Some(""))
  {
    var rs := Residual(ts, es);
    ResidualProper(ts, es);
    HeadTailOfJoin(rs);
    RemoveIsTail(s, e);
    ResidualStep(ts, es, e);
    JoinEmptyIff(rs[1..]);
  }

  /** Lists below i have seen `e`, those from i on have not. */
  predicate Midway(valid: seq<CString>, lists: seq<CString>, i: nat, es: seq<Event>, e: Event) {
    && |lists| == |valid| && i <= |lists|
    && (forall j :: 0 <= j < |lists| ==> Agrees(valid[j], lists[j], if j < i then es + [e] else es))
  }

  lemma MidwayStep(valid: seq<CString>, lists: seq<CString>, i: nat, es: seq<Event>, e: Event, s: CString)
    requires Midway(valid, lists, i, es, e) && i < |lists| && Agrees(valid[i], s, es + [e])
    ensures Midway(valid, lists[i := s], i + 1, es, e)
  {
    var lists' := lists[i := s];
    forall j | 0 <= j < |lists'| ensures Agrees(valid[j], lists'[j], if j < i + 1 then es + [e] else es) {
      assert j != i ==> Agrees(valid[j], lists[j], if j < i then es + [e] else es);
    }
  }

  /** One stored list and one success. */
  lemma ListStep(l: CString, s: CString, es: seq<Event>, e: Event)
    requires Proper(Tokens(l)) && WellNamed(e) && Agrees(l, s, es)
    ensures var r := RemoveMethod(s, e.meth, e.sub);
      if r == Some("") then Completed(l, es + [e]) else Agrees(l, if r.None? then s else r.value, es + [e])
  {
    StoredStep(Tokens(l), s, es, e);
    assert (es + [e])[..|es|] == es;
  }

  lemma MidwayDone(valid: seq<CString>, lists: seq<CString>, es: seq<Event>, e: Event)
    requires Midway(valid, lists, |lists|, es, e)
    ensures ListsAgree(valid, lists, es + [e])
  {
    forall j | 0 <= j < |lists| ensures Agrees(valid[j], lists[j], es + [e]) {
      assert Agrees(valid[j], lists[j], if j < |lists| then es + [e] else es);
    }
  }

  /** auth2_update_methods_lists keeps every list a residual, or completes list l. */
  lemma {:induction false} UpdateAgrees(valid: seq<CString>, lists: seq<CString>, i: nat, es: seq<Event>, e: Event)
    returns (l: CString)
    requires forall l :: l in valid ==> Proper(Tokens(l))
    requires WellNamed(e) && Midway(valid, lists, i, es, e)
    ensures var u := UpdateLists(lists, i, e);
      && (u.Remaining? ==> ListsAgree(valid, u.lists, es + [e]))
      && (u.Complete? ==> l in valid && Completed(l, es + [e]))
    decreases |lists| - i
  {
    l := "";
    if i < |lists| {
      var r := RemoveMethod(lists[i], e.meth, e.sub);
      NextList(valid, lists, i, es, e, r);
      if r == Some("") {
        l := valid[i];
      } else {
        l := UpdateAgrees(valid, if r.Some? then lists[i := r.value] else lists, i + 1, es, e);
      }
    } else {
      MidwayDone(valid, lists, es, e);
    }
  }

  /** The list at i, where remove_method gives r. */
  lemma NextList(valid: seq<CString>, lists: seq<CString>, i: nat, es: seq<Event>, e: Event, r: Option<string>)
    requires forall l :: l in valid ==> Proper(Tokens(l))
    requires WellNamed(e) && Midway(valid, lists, i, es, e) && i < |lists| && r == RemoveMethod(lists[i], e.meth, e.sub)
    ensures r == Some("") ==> Completed(valid[i], es + [e])
    ensures r.None? ==> Midway(valid, lists, i + 1, es, e)
    ensures r.Some? && r.value != "" ==> '\0' !in r.value && Midway(valid, lists[i := r.value], i + 1, es, e)
  {
    assert Agrees(valid[i], lists[i], es) && valid[i] in valid;
    ListStep(valid[i], lists[i], es, e);
    if r.None? {
      MidwayStep(valid, lists, i, es, e, lists[i]);
      assert lists[i := lists[i]] == lists;
    } else if r.value != "" {
      MidwayStep(valid, lists, i, es, e, r.value);
    }
  }

  lemma ValidListsProper(cfg: Config)
    ensures forall l :: l in ValidLists(cfg) ==> Proper(Tokens(l))
  {
    var table := Table(cfg.flags, true);
    forall l, t | l in ValidLists(cfg) && t in Tokens(l) ensures t != "" && ',' !in t {
      assert Listed(table, Base(t), true);
    }
  }

  lemma NothingConsumedYet(valid: seq<CString>)
    ensures ListsAgree(valid, valid, [])
  {
    forall i | 0 <= i < |valid| ensures Agrees(valid[i], valid[i], []) {
      JoinTokens(valid[i]);
    }
  }

  // ---- userauth_finish

  function Appended(es: seq<Event>, e: Option<Event>): seq<Event> { if e.Some? then es + [e.value] else es }

  predicate PlainName(n: string) { n != "" && ',' !in n && ':' !in n && '\0' !in n }

  lemma ShortNames()
    ensures PlainName("none") && PlainName("password") && PlainName("pam") && PlainName("bsdauth")
  {
  }

  lemma LongerNames()
    ensures PlainName("publickey") && PlainName("hostbased")
  {
  }

  lemma GssapiName()
    ensures PlainName("gssapi-with-mic")
  {
  }

  lemma KeyboardName()
    ensures PlainName("keyboard-interactive")
  {
  }

  lemma TableNames(f: Flags, noneEnabled: bool, m: MethodCfg)
    requires m in Table(f, noneEnabled)
    ensures PlainName(m.name)
  {
    ShortNames();
    LongerNames();
    GssapiName();
    KeyboardName();
    var t := Table(f, noneEnabled);
    assert m == t[0] || m == t[1] || m == t[2] || m == t[3] || m == t[4] || m == t[5];
  }

  /** userauth_finish touches nothing but the lists, the failure count and the success flag. */
  lemma FinishFrame(cfg: Config, a: Auth, authenticated: bool, name: string, sub: Option<string>, p: Policy)
    ensures match UserauthFinish(cfg, a, authenticated, name, sub, p)
      case Stop => true
      case Finished(b, acc) =>
        && b == a.(lists := b.lists, failures := b.failures, success := b.success)
        && (acc.Some? ==> authenticated && ByName(Table(cfg.flags, a.noneEnabled), name).Some?
                          && acc.value == Event(ByName(Table(cfg.flags, a.noneEnabled), name).value.name, sub))
        && (acc.None? ==> b.lists == a.lists && b.success == a.success)
        && (b.success || b.failures < cfg.maxTries || (a.postponed && b == a))
  {
    var m := ByName(Table(cfg.flags, a.noneEnabled), name);
    if authenticated && a.valid && !a.postponed && m.Some? && !p.rootDenied {
      AcceptedFrame(cfg, a, Event(m.value.name, sub), p);
    }
  }

  lemma AcceptedFrame(cfg: Config, a: Auth, e: Event, p: Policy)
    ensures match Accepted(cfg, a, e, p)
      case Stop => true
      case Finished(b, acc) =>
        && b == a.(lists := b.lists, failures := b.failures, success := b.success)
        && (acc.Some? ==> acc.value == e) && (acc.None? ==> b.lists == a.lists && b.success == a.success)
        && (b.success || b.failures < cfg.maxTries)
  {
  }

  lemma FinishKeepsLists(cfg: Config, a: Auth, es: seq<Event>, authenticated: bool, name: string,
                         sub: Option<string>, p: Policy)
    requires !a.success && ListPart(cfg, a, es) && (sub.Some? ==> sub.value in {"pam", "bsdauth"})
    ensures match UserauthFinish(cfg, a, authenticated, name, sub, p)
      case Stop => true
      case Finished(b, acc) => ListPart(cfg, b, Appended(es, acc))
  {
    var m := ByName(Table(cfg.flags, a.noneEnabled), name);
    if m.Some? && Lists(cfg) != [] {
      var e := Event(m.value.name, sub);
      TableNames(cfg.flags, a.noneEnabled, m.value);
      ShortNames();
      ValidListsProper(cfg);
      var l := UpdateAgrees(ValidLists(cfg), a.lists, 0, es, e);
    }
  }

  // ---- keys

  lemma KeyUsedGrows(keys: seq<Key>, k: Key)
    ensures KeyUsed(keys + [k], k)
    ensures forall l :: KeyUsed(keys, l) ==> KeyUsed(keys + [k], l)
  {
    assert (keys + [k])[|keys|] == k && EqualPublic(k, (keys + [k])[|keys|]);
    forall l | KeyUsed(keys, l) ensures KeyUsed(keys + [k], l) {
      var i :| 0 <= i < |keys| && EqualPublic(l, keys[i]);
      assert EqualPublic(l, (keys + [k])[i]);
    }
  }

  /** A key passes userauth_pubkey only if it is new, and is then on record. */
  lemma PubkeyEffect(a: Auth, t: Attempt, log: seq<Success>)
    requires t.Pubkey? && DistinctKeys(a.prevKeys) && KeysOk(log, a.prevKeys)
    ensures var (b, ok) := UserauthPubkey(a, t);
      && b == a.(postponed := b.postponed, prevKeys := b.prevKeys)
      && DistinctKeys(b.prevKeys) && KeysOk(log, b.prevKeys)
      && (ok ==> a.valid && t.key.Some? && !KeyUsed(a.prevKeys, t.key.value) && KeyUsed(b.prevKeys, t.key.value))
  {
    if t.key.Some? {
      KeyUsedGrows(a.prevKeys, t.key.value);
    }
  }

  /** A new publickey success keeps the keys of the log apart. */
  lemma LogKey(log: seq<Success>, before: seq<Key>, keys: seq<Key>, e: Event, k: Key)
    requires KeysOk(log, before) && KeysOk(log, keys) && !KeyUsed(before, k) && KeyUsed(keys, k)
    ensures KeysOk(log + [Success(e, Some(k))], keys)
  {
    assert forall l :: KeyUsed(before, l) ==> !EqualPublic(l, k);
  }

  lemma LogOther(log: seq<Success>, keys: seq<Key>, e: Event)
    requires KeysOk(log, keys) && e.meth != "publickey"
    ensures KeysOk(log + [Success(e, None)], keys)
  {
  }

  // ---- requests

  lemma CallEffect(a: Auth, m: MethodCfg, t: Attempt, log: seq<Success>)
    requires DistinctKeys(a.prevKeys) && KeysOk(log, a.prevKeys)
    ensures var (c, ok) := CallMethod(a, m, t);
      && c == a.(postponed := c.postponed, serverFailure := c.serverFailure, noneEnabled := c.noneEnabled, prevKeys := c.prevKeys)
      && (c.noneEnabled == a.noneEnabled || m.name == "none")
      && DistinctKeys(c.prevKeys) && KeysOk(log, c.prevKeys)
      && (ok && m.name == "publickey" ==>
            t.Pubkey? && t.key.Some? && !KeyUsed(a.prevKeys, t.key.value) && KeyUsed(c.prevKeys, t.key.value))
  {
    if m.name == "publickey" && t.Pubkey? {
      PubkeyEffect(a, t, log);
    }
  }

  /** Clearing the flag of "none" does not change which method a name stands for. */
  lemma SameName(f: Flags, noneEnabled: bool, name: string)
    ensures var m := ByName(Table(f, noneEnabled), name);
      m.Some? ==> ByName(Table(f, false), name).Some? && ByName(Table(f, false), name).value.name == m.value.name
  {
    var t, u := Table(f, noneEnabled), Table(f, false);
    assert t[1..] == u[1..];
  }

  lemma TriedEffect(cfg: Config, a: Auth, r: Request, log: seq<Success>)
    requires r.Userauth? && DistinctKeys(a.prevKeys) && KeysOk(log, a.prevKeys)
    ensures var (c, ok) := Tried(cfg, a, r);
      && c == a.(postponed := c.postponed, serverFailure := c.serverFailure, noneEnabled := c.noneEnabled, prevKeys := c.prevKeys)
      && DistinctKeys(c.prevKeys) && KeysOk(log, c.prevKeys)
      && (c.postponed || ok ==> a.failures < cfg.maxTries)
      && (ok && ByName(Table(cfg.flags, c.noneEnabled), r.name).Some?
             && ByName(Table(cfg.flags, c.noneEnabled), r.name).value.name == "publickey"
          ==> KeyOf(r).Some? && !KeyUsed(a.prevKeys, KeyOf(r).value) && KeyUsed(c.prevKeys, KeyOf(r).value))
  {
    var b := a.(postponed := false, serverFailure := false);
    var m := Lookup(cfg, b, r.name);
    if m.Some? {
      CallEffect(b, m.value, r.attempt, log);
      SameName(cfg.flags, b.noneEnabled, r.name);
    }
  }

  lemma EventsAppend(log: seq<Success>, x: Success)
    ensures Events(log + [x]) == Events(log) + [x.event]
  {
  }

  lemma Admitted(cfg: Config, s: Session, r: Request)
    requires Inv(cfg, s) && !s.auth.success && r.Userauth? && Admit(cfg, s.auth, r).Some?
    ensures var b := Admit(cfg, s.auth, r).value;
      && 0 < b.attempt <= 1024 && !b.success && ListPart(cfg, b, Events(s.log))
      && b.prevKeys == s.auth.prevKeys && b.failures == s.auth.failures
      && (s.auth.attempt > 0 ==> b.user == s.auth.user && b.service == s.auth.service)
  {
    if s.auth.attempt == 0 {
      assert Events(s.log) == [];
      NothingConsumedYet(ValidLists(cfg));
    }
  }

  /** Once set, user and service stay; the log only grows. */
  predicate Stable(s: Session, t: Session) {
    && (s.auth.attempt > 0 ==> t.auth.attempt > 0 && t.auth.user == s.auth.user && t.auth.service == s.auth.service)
    && s.log <= t.log
  }

  /** The session after a request, given what userauth_finish returned. */
  function After(s: Session, r: Request, f: Finish): Session
    requires f.Finished?
  {
    if f.accepted.None? then Session(f.auth, s.log)
    else Session(f.auth, s.log + [Success(f.accepted.value, if f.accepted.value.meth == "publickey" then KeyOf(r) else None)])
  }

  lemma KeepLog(s: Session, r: Request, f: Finish, keys: seq<Key>)
    requires f.Finished? && KeysOk(s.log, s.auth.prevKeys) && KeysOk(s.log, keys)
    requires f.accepted.Some? && f.accepted.value.meth == "publickey" ==>
      KeyOf(r).Some? && !KeyUsed(s.auth.prevKeys, KeyOf(r).value) && KeyUsed(keys, KeyOf(r).value)
    ensures KeysOk(After(s, r, f).log, keys) && s.log <= After(s, r, f).log
    ensures Events(After(s, r, f).log) == Appended(Events(s.log), f.accepted)
  {
    if f.accepted.Some? {
      var e := f.accepted.value;
      if e.meth == "publickey" {
        LogKey(s.log, s.auth.prevKeys, keys, e, KeyOf(r).value);
      } else {
        LogOther(s.log, keys, e);
      }
      EventsAppend(s.log, Success(e, if e.meth == "publickey" then KeyOf(r) else None));
    }
  }

  /** The request admitted as b, with c and `ok` left by the method. */
  lemma KeepFinish(cfg: Config, s: Session, r: Request, b: Auth, c: Auth, ok: bool)
    requires r.Userauth? && 0 < b.attempt <= 1024 && !b.success && ListPart(cfg, b, Events(s.log)) && b.prevKeys == s.auth.prevKeys
    requires s.auth.attempt > 0 ==> b.user == s.auth.user && b.service == s.auth.service
    requires c == b.(postponed := c.postponed, serverFailure := c.serverFailure, noneEnabled := c.noneEnabled, prevKeys := c.prevKeys)
    requires KeysOk(s.log, s.auth.prevKeys) && DistinctKeys(c.prevKeys) && KeysOk(s.log, c.prevKeys)
    requires c.postponed || ok ==> b.failures < cfg.maxTries
    requires var m := ByName(Table(cfg.flags, c.noneEnabled), r.name);
      ok && m.Some? && m.value.name == "publickey"
      ==> KeyOf(r).Some? && !KeyUsed(s.auth.prevKeys, KeyOf(r).value) && KeyUsed(c.prevKeys, KeyOf(r).value)
    ensures var f := UserauthFinish(cfg, c, ok, r.name, None, r.policy);
      f.Finished? ==> Inv(cfg, After(s, r, f)) && Stable(s, After(s, r, f))
  {
    var f := UserauthFinish(cfg, c, ok, r.name, None, r.policy);
    FinishKeepsLists(cfg, c, Events(s.log), ok, r.name, None, r.policy);
    FinishFrame(cfg, c, ok, r.name, None, r.policy);
    if f.Finished? {
      KeepLog(s, r, f, c.prevKeys);
    }
  }

  /** Inv and Stable after a request, whatever userauth_finish returned. */
  ghost predicate Kept(cfg: Config, s: Session, r: Request, f: Finish) {
    f.Finished? ==> Inv(cfg, After(s, r, f)) && Stable(s, After(s, r, f))
  }

  lemma KeepUserauth(cfg: Config, s: Session, r: Request)
    requires Inv(cfg, s) && !s.auth.success && r.Userauth?
    ensures Kept(cfg, s, r, Handle(cfg, s.auth, r))
  {
    if Admit(cfg, s.auth, r).Some? {
      Admitted(cfg, s, r);
      var b := Admit(cfg, s.auth, r).value;
      TriedEffect(cfg, b, r, s.log);
      var (c, ok) := Tried(cfg, b, r);
      KeepFinish(cfg, s, r, b, c, ok);
    }
  }

  /** The session after a finished exchange. */
  function Later(s: Session, f: Finish): Session
    requires f.Finished?
  {
    Session(f.auth, if f.accepted.Some? then s.log + [Success(f.accepted.value, None)] else s.log)
  }

  /** The two methods that finish later, when the exchange they postponed is over. */
  lemma KeepLater(cfg: Config, s: Session, c: Auth, ok: bool, name: string, sub: Option<string>, p: Policy)
    requires Inv(cfg, s) && !s.auth.success && s.auth.attempt > 0
    requires c == s.auth.(postponed := c.postponed)
    requires (name == "keyboard-interactive" && sub.Some? && sub.value in {"pam", "bsdauth"})
          || (name == "gssapi-with-mic" && sub.None?)
    ensures var f := UserauthFinish(cfg, c, ok, name, sub, p);
      && (f.Finished? && f.accepted.Some? ==> f.accepted.value.meth == name)
      && (f.Finished? ==> Inv(cfg, Later(s, f)) && Stable(s, Later(s, f)))
  {
    var f := UserauthFinish(cfg, c, ok, name, sub, p);
    FinishKeepsLists(cfg, c, Events(s.log), ok, name, sub, p);
    FinishFrame(cfg, c, ok, name, sub, p);
    if f.Finished? && f.accepted.Some? {
      LaterName(cfg.flags, c.noneEnabled, name);
      LogOther(s.log, c.prevKeys, f.accepted.value);
      EventsAppend(s.log, Success(f.accepted.value, None));
    }
  }

  lemma LaterName(f: Flags, noneEnabled: bool, name: string)
    requires name == "keyboard-interactive" || name == "gssapi-with-mic"
    ensures var m := ByName(Table(f, noneEnabled), name); m.Some? ==> m.value.name == name
  {
    var t := Table(f, noneEnabled);
    assert forall i :: 0 <= i < |t| && t[i].synonym.Some? ==> t[i].synonym.value != name;
  }

  lemma AfterLater(s: Session, r: Request, f: Finish)
    requires f.Finished? && (f.accepted.Some? ==> f.accepted.value.meth != "publickey")
    ensures After(s, r, f) == Later(s, f)
  {
  }

  lemma KeepExchange(cfg: Config, s: Session, r: Request)
    requires Inv(cfg, s) && !s.auth.success && !r.Userauth? && s.auth.postponed
    ensures Kept(cfg, s, r, Handle(cfg, s.auth, r))
  {
    var f := Handle(cfg, s.auth, r);
    match r
    case InfoResponse(d, ok, again, p) =>
      KeepLater(cfg, s, s.auth.(postponed := again && !ok), ok && s.auth.valid, "keyboard-interactive", Some(DeviceName(d)), p);
      if f.Finished? {
        AfterLater(s, r, f);
      }
    case GssapiFinish(ok, p) =>
      KeepLater(cfg, s, s.auth.(postponed := false), ok, "gssapi-with-mic", None, p);
      if f.Finished? {
        AfterLater(s, r, f);
      }
  }

  lemma StepIsAfter(cfg: Config, s: Session, r: Request)
    requires !s.auth.success
    ensures var f := Handle(cfg, s.auth, r); Step(cfg, s, r) == if f.Stop? then Stopped else Running(After(s, r, f))
    ensures !r.Userauth? && !s.auth.postponed ==> Step(cfg, s, r) == Running(s)
  {
  }

  lemma KeepStep(cfg: Config, s: Session, r: Request)
    requires Inv(cfg, s)
    ensures match Step(cfg, s, r) case Stopped => true case Running(t) => Inv(cfg, t) && Stable(s, t)
  {
    if !s.auth.success {
      StepIsAfter(cfg, s, r);
      if r.Userauth? {
        KeepUserauth(cfg, s, r);
      } else if s.auth.postponed {
        KeepExchange(cfg, s, r);
      }
    }
  }

  lemma StableTransitive(s: Session, t: Session, u: Session)
    requires Stable(s, t) && Stable(t, u)
    ensures Stable(s, u)
  {
  }

  lemma {:induction false} RunKeeps(cfg: Config, s: Session, rs: seq<Request>)
    requires Inv(cfg, s)
    ensures match Run(cfg, s, rs) case Stopped => true case Running(t) => Inv(cfg, t) && Stable(s, t)
    decreases rs
  {
    if rs != [] {
      var o := Step(cfg, s, rs[0]);
      KeepStep(cfg, s, rs[0]);
      if o.Running? {
        RunKeeps(cfg, o.session, rs[1..]);
        var p := Run(cfg, o.session, rs[1..]);
        if p.Running? {
          StableTransitive(s, o.session, p.session);
        }
      }
    }
  }

  lemma CompletedByTheLast(ts: seq<string>, es: seq<Event>) returns (at: seq<nat>)
    requires ts != [] && es != [] && Residual(ts, es) == [] && Residual(ts, es[..|es| - 1]) != []
    ensures Embeds(ts, es, at) && at[|at| - 1] == |es| - 1
  {
    at := ConsumedEmbeds(ts, es);
    assert ts[..|ts|] == ts;
    var fs := es[..|es| - 1];
    if at[|at| - 1] != |es| - 1 {
      forall k | 0 <= k < |at| ensures at[k] < |fs| && Matches(ts[k], fs[at[k]]) {
        assert k < |at| - 1 ==> at[k] < at[|at| - 1];
      }
      GreedyIsComplete(ts, |ts|, fs, at);
      assert false;
    }
  }

  // ---- what follows for every run

  const Start := Session(Fresh, [])

  lemma StartInv(cfg: Config)
    ensures Inv(cfg, Start)
  {
  }

  /**
   With AuthenticationMethods configured, a run succeeds only if some configured, fully enabled list had all
   its tokens matched, in order, by accepted successes, the last of them being the final success.
   */
  lemma SuccessCompletesAList(cfg: Config, rs: seq<Request>) returns (list: CString, at: seq<nat>)
    requires var r := Run(cfg, Start, rs); r.Running? && r.session.auth.success && Lists(cfg) != []
    ensures var es := Events(Run(cfg, Start, rs).session.log);
      && list in Lists(cfg) && MethodsValid(list, Table(cfg.flags, true), true)
      && Embeds(Tokens(list), es, at) && at[|at| - 1] == |es| - 1
  {
    StartInv(cfg);
    RunKeeps(cfg, Start, rs);
    var es := Events(Run(cfg, Start, rs).session.log);
    list :| list in ValidLists(cfg) && Completed(list, es);
    at := CompletedByTheLast(Tokens(list), es);
  }

  /** A run that has not succeeded has not met any usable list in any order-preserving way. */
  lemma NoListMetWithoutSuccess(cfg: Config, rs: seq<Request>, list: CString, at: seq<nat>)
    requires var r := Run(cfg, Start, rs); r.Running? && !r.session.auth.success && r.session.auth.attempt > 0
    requires list in ValidLists(cfg)
    ensures !Embeds(Tokens(list), Events(Run(cfg, Start, rs).session.log), at)
  {
    StartInv(cfg);
    RunKeeps(cfg, Start, rs);
    var s := Run(cfg, Start, rs).session;
    var valid := ValidLists(cfg);
    var i :| 0 <= i < |valid| && valid[i] == list;
    assert Agrees(valid[i], s.auth.lists[i], Events(s.log));
    CompleteIff(Tokens(list), Events(s.log));
  }

  /** Until a run succeeds, every stored string is the greedy residual of its list. */
  lemma StoredListsAreResiduals(cfg: Config, rs: seq<Request>)
    requires var r := Run(cfg, Start, rs); r.Running? && !r.session.auth.success
    requires Run(cfg, Start, rs).session.auth.attempt > 0 && Lists(cfg) != []
    ensures var s := Run(cfg, Start, rs).session; var valid := ValidLists(cfg);
      && |s.auth.lists| == |valid|
      && forall i :: 0 <= i < |valid| ==> s.auth.lists[i] == Join(Residual(Tokens(valid[i]), Events(s.log)))
  {
    StartInv(cfg);
    RunKeeps(cfg, Start, rs);
    var s := Run(cfg, Start, rs).session;
    assert forall i :: 0 <= i < |s.auth.lists| ==> Agrees(ValidLists(cfg)[i], s.auth.lists[i], Events(s.log));
  }

  // ---- requests and keys, counted over the run

  function Userauths(rs: seq<Request>): nat {
    if rs == [] then 0 else (if rs[0].Userauth? then 1 else 0) + Userauths(rs[1..])
  }

  lemma CallGrows(a: Auth, m: MethodCfg, t: Attempt)
    ensures a.prevKeys <= CallMethod(a, m, t).0.prevKeys
  {
  }

  lemma TriedGrows(cfg: Config, a: Auth, r: Request)
    requires r.Userauth?
    ensures a.prevKeys <= Tried(cfg, a, r).0.prevKeys
  {
    var b := a.(postponed := false, serverFailure := false);
    var m := Lookup(cfg, b, r.name);
    if m.Some? && b.failures < cfg.maxTries {
      CallGrows(b, m.value, r.attempt);
    }
  }

  /** Keys are only ever added, and a publickey success is one with a key that was not on record. */
  predicate KeyStep(s: Session, t: Session) {
    && s.auth.prevKeys <= t.auth.prevKeys
    && (t.log == s.log
        || (&& |t.log| == |s.log| + 1 && t.log[..|s.log|] == s.log
            && var x := t.log[|s.log|];
            && (x.event.meth == "publickey" ==> x.key.Some? && !KeyUsed(s.auth.prevKeys, x.key.value))))
  }

  lemma UserauthKeyStep(cfg: Config, s: Session, r: Request)
    requires Inv(cfg, s) && !s.auth.success && r.Userauth? && Step(cfg, s, r).Running?
    ensures var t := Step(cfg, s, r).session; KeyStep(s, t) && t.auth.attempt == s.auth.attempt + 1
  {
    Admitted(cfg, s, r);
    var b := Admit(cfg, s.auth, r).value;
    TriedEffect(cfg, b, r, s.log);
    TriedGrows(cfg, b, r);
    var (c, ok) := Tried(cfg, b, r);
    FinishFrame(cfg, c, ok, r.name, None, r.policy);
  }

  lemma LaterKeyStep(cfg: Config, s: Session, r: Request)
    requires Inv(cfg, s) && !s.auth.success && !r.Userauth? && Step(cfg, s, r).Running?
    ensures var t := Step(cfg, s, r).session; KeyStep(s, t) && t.auth.attempt == s.auth.attempt
  {
    match r
    case InfoResponse(d, ok, again, p) =>
      LaterName(cfg.flags, s.auth.noneEnabled, "keyboard-interactive");
      FinishFrame(cfg, s.auth.(postponed := again && !ok), ok && s.auth.valid, "keyboard-interactive", Some(DeviceName(d)), p);
    case GssapiFinish(ok, p) =>
      LaterName(cfg.flags, s.auth.noneEnabled, "gssapi-with-mic");
      FinishFrame(cfg, s.auth.(postponed := false), ok, "gssapi-with-mic", None, p);
  }

  lemma StepLimits(cfg: Config, s: Session, r: Request)
    requires Inv(cfg, s) && Step(cfg, s, r).Running?
    ensures var t := Step(cfg, s, r).session;
      KeyStep(s, t) && (s.auth.success || t.auth.attempt == s.auth.attempt + if r.Userauth? then 1 else 0)
  {
    if !s.auth.success {
      if r.Userauth? {
        UserauthKeyStep(cfg, s, r);
      } else {
        LaterKeyStep(cfg, s, r);
      }
    }
  }

  lemma {:induction false} SuccessStays(cfg: Config, s: Session, rs: seq<Request>)
    requires s.auth.success
    ensures Run(cfg, s, rs) == Running(s)
    decreases rs
  {
    if rs != [] {
      SuccessStays(cfg, s, rs[1..]);
    }
  }

  lemma {:induction false} RunCounts(cfg: Config, s: Session, rs: seq<Request>)
    requires Inv(cfg, s) && Run(cfg, s, rs).Running?
    ensures var t := Run(cfg, s, rs).session; !t.auth.success ==> t.auth.attempt == s.auth.attempt + Userauths(rs)
    decreases rs
  {
    if s.auth.success {
      SuccessStays(cfg, s, rs);
    } else if rs != [] {
      KeepStep(cfg, s, rs[0]);
      StepLimits(cfg, s, rs[0]);
      RunCounts(cfg, Step(cfg, s, rs[0]).session, rs[1..]);
    }
  }

  lemma {:induction false} RunNewKeys(cfg: Config, s: Session, rs: seq<Request>, k: Key, i: nat)
    requires Inv(cfg, s) && Run(cfg, s, rs).Running? && KeyUsed(s.auth.prevKeys, k)
    requires var t := Run(cfg, s, rs).session; |s.log| <= i < |t.log| && t.log[i].event.meth == "publickey"
    ensures var t := Run(cfg, s, rs).session; t.log[i].key.Some? && !EqualPublic(t.log[i].key.value, k)
    decreases rs
  {
    var u, t := Step(cfg, s, rs[0]).session, Run(cfg, s, rs).session;
    KeepStep(cfg, s, rs[0]);
    StepLimits(cfg, s, rs[0]);
    RunKeeps(cfg, u, rs[1..]);
    if i < |u.log| {
      assert t.log[i] == u.log[i];
    } else {
      var n :| 0 <= n < |s.auth.prevKeys| && EqualPublic(k, s.auth.prevKeys[n]);
      assert EqualPublic(k, u.auth.prevKeys[n]);
      RunNewKeys(cfg, u, rs[1..], k, i);
    }
  }

  /** A key that passed its checks is put on record even when the options that come with it then refuse the login. */
  lemma VerifiedIsRecorded(a: Auth, t: Attempt)
    requires t.Pubkey? && t.key.Some? && t.certOk && a.valid && t.hasSig && t.allowed && t.verified && t.detailsOk
    ensures var (b, ok) := UserauthPubkey(a, t); KeyUsed(b.prevKeys, t.key.value) && (ok ==> t.optionsOk)
  {
    KeyUsedGrows(a.prevKeys, t.key.value);
  }

  /** A key on record is never again the key of a counted success, whether or not it ever was. */
  lemma RecordedKeyNeverCounts(cfg: Config, rs: seq<Request>, more: seq<Request>, k: Key, i: nat)
    requires Run(cfg, Start, rs).Running? && KeyUsed(Run(cfg, Start, rs).session.auth.prevKeys, k)
    requires Run(cfg, Run(cfg, Start, rs).session, more).Running?
    requires var s := Run(cfg, Start, rs).session; var t := Run(cfg, s, more).session;
      |s.log| <= i < |t.log| && t.log[i].event.meth == "publickey"
    ensures var t := Run(cfg, Run(cfg, Start, rs).session, more).session;
      t.log[i].key.Some? && !EqualPublic(t.log[i].key.value, k)
  {
    StartInv(cfg);
    RunKeeps(cfg, Start, rs);
    RunNewKeys(cfg, Run(cfg, Start, rs).session, more, k, i);
  }

  /**
   A run that goes on without success has made at most 1024 authentication requests and fewer than MaxAuthTries
   failures, and no two publickey successes of any run used the same public key.
   */
  lemma RunLimits(cfg: Config, rs: seq<Request>)
    requires Run(cfg, Start, rs).Running?
    ensures var s := Run(cfg, Start, rs).session;
      && (!s.auth.success ==> s.auth.attempt == Userauths(rs) <= 1024)
      && (s.auth.attempt > 0 && !s.auth.success ==> s.auth.failures < cfg.maxTries)
      && forall i, j :: 0 <= i < j < |s.log| && s.log[i].event.meth == "publickey" && s.log[j].event.meth == "publickey"
           ==> s.log[i].key.Some? && s.log[j].key.Some? && s.log[i].key.value.public != s.log[j].key.value.public
  {
    StartInv(cfg);
    RunKeeps(cfg, Start, rs);
    RunCounts(cfg, Start, rs);
  }

  /** User and service never change after the first request of a run. */
  lemma UserIsFixed(cfg: Config, rs: seq<Request>, more: seq<Request>)
    requires Run(cfg, Start, rs).Running? && Run(cfg, Start, rs).session.auth.attempt > 0
    requires Run(cfg, Run(cfg, Start, rs).session, more).Running?
    ensures var s := Run(cfg, Start, rs).session; var t := Run(cfg, s, more).session;
      t.auth.user == s.auth.user && t.auth.service == s.auth.service
  {
    StartInv(cfg);
    RunKeeps(cfg, Start, rs);
    RunKeeps(cfg, Run(cfg, Start, rs).session, more);
  }
}
