/** Exactly when a request counts as a success, and exactly when it is the last one needed. */
module UserAuthCounts {
  import opened Basics
  import opened MethodLists
  import opened UserAuth
  import opened UserAuthSafety
  import opened UserAuthVerdict

  // ---- the lists that are left

  /** The base of the next token of a list whose stored string is s. */
  lemma StartsIff(s: string, meth: string)
    requires PlainName(meth) && '\0' !in s
    ensures ListStartsWith(s, meth, None) != MatchNone <==> Base(Head(s)) == meth
  {
    var h := Head(s);
    var n := |meth|;
    if ListStartsWith(s, meth, None) == MatchMethod {
      HeadIsPrefix(s, meth);
      SpanUnique(meth, ':', n);
    } else if ListStartsWith(s, meth, None) == MatchPartial {
      assert s[0..n] == s[..n] == meth && s[n] == ':';
      assert Span(s, ',') > n;
      assert h[..n] == meth && h[n] == ':';
      SpanUnique(h, ':', n);
    }
    if Base(h) == meth {
      assert s[0..n] == h[..n] == meth;
      assert CharAt(s, n) in {':', ',', '\0'};
    }
  }

  /** The tokens of a list that the successes so far have left. */
  function Left(l: CString, es: seq<Event>): seq<string> { Residual(Tokens(l), es) }

  predicate IsNext(l: CString, es: seq<Event>, e: Event) { Left(l, es) != [] && Matches(Left(l, es)[0], e) }

  predicate IsLast(l: CString, es: seq<Event>, e: Event) { IsNext(l, es, e) && |Left(l, es)| == 1 }

  predicate IsAwaited(l: CString, es: seq<Event>, meth: string) { Left(l, es) != [] && Base(Left(l, es)[0]) == meth }

  /** No list is configured, or the next token of some usable list is of this method. */
  predicate Awaited(cfg: Config, es: seq<Event>, meth: string) {
    Lists(cfg) == [] || exists l :: l in ValidLists(cfg) && IsAwaited(l, es, meth)
  }

  /** No list is configured, or the success matches the next token of some usable list. */
  predicate Advances(cfg: Config, es: seq<Event>, e: Event) {
    Lists(cfg) == [] || exists l :: l in ValidLists(cfg) && IsNext(l, es, e)
  }

  /** No list is configured, or it is all that is left of some usable list. */
  predicate Finishes(cfg: Config, es: seq<Event>, e: Event) {
    Lists(cfg) == [] || exists l :: l in ValidLists(cfg) && IsLast(l, es, e)
  }

  lemma StoredHead(l: CString, s: CString, es: seq<Event>)
    requires Proper(Tokens(l)) && Agrees(l, s, es)
    ensures Head(s) == Left(l, es)[0] && (Tail(s) == "" <==> |Left(l, es)| == 1)
  {
    ResidualProper(Tokens(l), es);
    HeadTailOfJoin(Left(l, es));
    JoinEmptyIff(Left(l, es)[1..]);
  }

  lemma ListAwaited(l: CString, s: CString, es: seq<Event>, meth: string)
    requires Proper(Tokens(l)) && Agrees(l, s, es) && PlainName(meth)
    ensures ListStartsWith(s, meth, None) != MatchNone <==> IsAwaited(l, es, meth)
  {
    StoredHead(l, s, es);
    StartsIff(s, meth);
  }

  lemma ListsAwaited(valid: seq<CString>, lists: seq<CString>, es: seq<Event>, meth: string)
    requires ListsAgree(valid, lists, es) && PlainName(meth) && forall l :: l in valid ==> Proper(Tokens(l))
    ensures (exists i :: 0 <= i < |lists| && ListStartsWith(lists[i], meth, None) != MatchNone)
       <==> (exists l :: l in valid && IsAwaited(l, es, meth))
  {
    forall i | 0 <= i < |lists| ensures ListStartsWith(lists[i], meth, None) != MatchNone <==> IsAwaited(valid[i], es, meth) {
      assert valid[i] in valid && Agrees(valid[i], lists[i], es);
      ListAwaited(valid[i], lists[i], es, meth);
    }
    if i :| 0 <= i < |lists| && ListStartsWith(lists[i], meth, None) != MatchNone {
      assert valid[i] in valid && IsAwaited(valid[i], es, meth);
    }
    if l :| l in valid && IsAwaited(l, es, meth) {
      var i :| 0 <= i < |valid| && valid[i] == l;
      assert ListStartsWith(lists[i], meth, None) != MatchNone;
    }
  }

  lemma AllowedIs(cfg: Config, lists: seq<CString>, es: seq<Event>, meth: string)
    requires PlainName(meth) && (Lists(cfg) != [] ==> ListsAgree(ValidLists(cfg), lists, es))
    ensures Allowed(cfg, lists, meth, None) <==> Awaited(cfg, es, meth)
  {
    if Lists(cfg) != [] {
      ValidListsProper(cfg);
      ListsAwaited(ValidLists(cfg), lists, es, meth);
    }
  }

  /** Of the lists from i on some is completed, or some starts with the success. */
  predicate LastFrom(valid: seq<CString>, i: nat, es: seq<Event>, e: Event)
    decreases |valid| - i
  {
    i < |valid| && (IsLast(valid[i], es, e) || LastFrom(valid, i + 1, es, e))
  }

  predicate NextFrom(valid: seq<CString>, i: nat, es: seq<Event>, e: Event)
    decreases |valid| - i
  {
    i < |valid| && (IsNext(valid[i], es, e) || NextFrom(valid, i + 1, es, e))
  }

  lemma {:induction false} FromAt(valid: seq<CString>, i: nat, es: seq<Event>, e: Event, j: nat)
    requires i <= j < |valid|
    ensures IsLast(valid[j], es, e) ==> LastFrom(valid, i, es, e)
    ensures IsNext(valid[j], es, e) ==> NextFrom(valid, i, es, e)
    decreases j - i
  {
    if i < j {
      FromAt(valid, i + 1, es, e, j);
    }
  }

  lemma {:induction false} LastAt(valid: seq<CString>, i: nat, es: seq<Event>, e: Event) returns (j: nat)
    requires LastFrom(valid, i, es, e)
    ensures i <= j < |valid| && IsLast(valid[j], es, e)
    decreases |valid| - i
  {
    if IsLast(valid[i], es, e) {
      j := i;
    } else {
      j := LastAt(valid, i + 1, es, e);
    }
  }

  lemma {:induction false} NextAt(valid: seq<CString>, i: nat, es: seq<Event>, e: Event) returns (j: nat)
    requires NextFrom(valid, i, es, e)
    ensures i <= j < |valid| && IsNext(valid[j], es, e)
    decreases |valid| - i
  {
    if IsNext(valid[i], es, e) {
      j := i;
    } else {
      j := NextAt(valid, i + 1, es, e);
    }
  }

  lemma RemoveIs(l: CString, s: CString, es: seq<Event>, e: Event)
    requires Proper(Tokens(l)) && WellNamed(e) && Agrees(l, s, es)
    ensures var r := RemoveMethod(s, e.meth, e.sub); (r.Some? <==> IsNext(l, es, e)) && (r == Some("") <==> IsLast(l, es, e))
  {
    StoredHead(l, s, es);
    RemoveIsTail(s, e);
  }

  /** One turn of the loop in auth2_update_methods_lists, where remove_method gives r. */
  lemma UpdateTurn(lists: seq<CString>, i: nat, e: Event, r: Option<string>, next: seq<CString>)
    requires i < |lists| && r == RemoveMethod(lists[i], e.meth, e.sub)
    requires r.Some? ==> '\0' !in r.value && next == lists[i := r.value]
    requires r.None? ==> next == lists
    ensures var v := UpdateLists(lists, i, e); var u := UpdateLists(next, i + 1, e);
      if r == Some("") then v.Complete?
      else v.Complete? == u.Complete? && (v.Remaining? ==> v.found == (u.found || r.Some?))
  {
  }

  lemma MidwayHere(valid: seq<CString>, lists: seq<CString>, i: nat, es: seq<Event>, e: Event)
    requires forall l :: l in valid ==> Proper(Tokens(l))
    requires Midway(valid, lists, i, es, e) && i < |lists|
    ensures |lists| == |valid| && Proper(Tokens(valid[i])) && Agrees(valid[i], lists[i], es)
  {
    assert valid[i] in valid;
  }

  /** The turn in terms of the lists: what is next in list i, and the lists that are left for the next turn. */
  lemma TurnIs(valid: seq<CString>, lists: seq<CString>, i: nat, es: seq<Event>, e: Event) returns (r: Option<string>, next: seq<CString>)
    requires forall l :: l in valid ==> Proper(Tokens(l))
    requires WellNamed(e) && Midway(valid, lists, i, es, e) && i < |lists|
    ensures r == RemoveMethod(lists[i], e.meth, e.sub) && i < |valid|
    ensures (r.Some? <==> IsNext(valid[i], es, e)) && (r == Some("") <==> IsLast(valid[i], es, e))
    ensures r.Some? ==> '\0' !in r.value && next == lists[i := r.value]
    ensures r.None? ==> next == lists
    ensures r != Some("") ==> Midway(valid, next, i + 1, es, e)
  {
    r := RemoveMethod(lists[i], e.meth, e.sub);
    MidwayHere(valid, lists, i, es, e);
    RemoveIs(valid[i], lists[i], es, e);
    NextList(valid, lists, i, es, e, r);
    next := if r.Some? then lists[i := r.value] else lists;
  }

  /** auth2_update_methods_lists completes a list exactly if one has nothing left but the success, and finds it exactly if one has it next. */
  lemma {:induction false} UpdateIs(valid: seq<CString>, lists: seq<CString>, i: nat, es: seq<Event>, e: Event)
    requires forall l :: l in valid ==> Proper(Tokens(l))
    requires WellNamed(e) && Midway(valid, lists, i, es, e)
    ensures var u := UpdateLists(lists, i, e);
      (u.Complete? <==> LastFrom(valid, i, es, e)) && (u.Remaining? ==> (u.found <==> NextFrom(valid, i, es, e)))
    decreases |lists| - i
  {
    if i < |lists| {
      var r, next := TurnIs(valid, lists, i, es, e);
      UpdateTurn(lists, i, e, r, next);
      if r != Some("") {
        UpdateIs(valid, next, i + 1, es, e);
      }
    }
  }

  lemma FromStart(cfg: Config, es: seq<Event>, e: Event)
    requires Lists(cfg) != []
    ensures LastFrom(ValidLists(cfg), 0, es, e) <==> Finishes(cfg, es, e)
    ensures NextFrom(ValidLists(cfg), 0, es, e) <==> Advances(cfg, es, e)
  {
    var valid := ValidLists(cfg);
    forall j: nat | j < |valid|
      ensures IsLast(valid[j], es, e) ==> LastFrom(valid, 0, es, e)
      ensures IsNext(valid[j], es, e) ==> NextFrom(valid, 0, es, e)
    {
      FromAt(valid, 0, es, e, j);
    }
    if LastFrom(valid, 0, es, e) {
      var j := LastAt(valid, 0, es, e);
      assert valid[j] in valid;
    }
    if NextFrom(valid, 0, es, e) {
      var j := NextAt(valid, 0, es, e);
      assert valid[j] in valid;
    }
  }

  lemma UpdateFinds(cfg: Config, lists: seq<CString>, es: seq<Event>, e: Event)
    requires Lists(cfg) != [] && ListsAgree(ValidLists(cfg), lists, es) && WellNamed(e)
    ensures var u := UpdateLists(lists, 0, e);
      (u.Complete? <==> Finishes(cfg, es, e)) && (u.Remaining? ==> (u.found <==> Advances(cfg, es, e)))
  {
    ValidListsProper(cfg);
    FromStart(cfg, es, e);
    UpdateIs(ValidLists(cfg), lists, 0, es, e);
  }

  /** A success is counted exactly if it advances some list, and is the last exactly if it finishes one that PAM accepts. */
  lemma AcceptedIff(cfg: Config, a: Auth, es: seq<Event>, e: Event, p: Policy)
    requires !a.success && ListPart(cfg, a, es) && WellNamed(e) && a.failures < cfg.maxTries
    ensures var f := Accepted(cfg, a, e, p);
      && (f.Finished? <==> Advances(cfg, es, e) && !(Finishes(cfg, es, e) && p.pamDenied))
      && (f.Finished? ==> f.accepted == Some(e) && (f.auth.success <==> Finishes(cfg, es, e)))
  {
    LastIsNext(cfg, es, e);
    if Lists(cfg) != [] {
      UpdateFinds(cfg, a.lists, es, e);
    }
  }

  lemma LastIsNext(cfg: Config, es: seq<Event>, e: Event)
    ensures Finishes(cfg, es, e) ==> Advances(cfg, es, e)
  {
  }

  // ---- one request, exactly

  /** Whether the user is valid as of this request: fixed by the first one. */
  predicate ValidUser(a: Auth, r: Request)
    requires r.Userauth?
  {
    if a.attempt == 0 then r.userOk && r.service == "ssh-connection" else a.valid
  }

  /** The request is not taken: too many, another user or service, or no usable list at all. */
  predicate Refused(cfg: Config, a: Auth, r: Request)
    requires r.Userauth?
  {
    || a.attempt >= 1024
    || (a.attempt > 0 && (r.user != a.user || r.service != a.service))
    || (a.attempt == 0 && Lists(cfg) != [] && ValidLists(cfg) == [])
  }

  /** The method requested is run: it exists, is enabled, is next in some list if there are lists, and tries are left. */
  predicate Called(cfg: Config, a: Auth, es: seq<Event>, name: string) {
    && MethodOf(name).Some? && a.failures < cfg.maxTries
    && EnabledBy(cfg.flags, a.noneEnabled, MethodOf(name).value) && Awaited(cfg, es, MethodOf(name).value)
  }

  /** A public key in order so far: well formed, not used before, of a valid user. */
  predicate FreshKey(t: Attempt, keys: seq<Key>, valid: bool) {
    t.Pubkey? && t.key.Some? && !KeyUsed(keys, t.key.value) && t.certOk && valid
  }

  /** The method says yes: a key has to be fresh and to pass every check. */
  predicate SaysYes(t: Attempt, meth: string, keys: seq<Key>, valid: bool) {
    if meth == "publickey" then FreshKey(t, keys, valid) && GoodKey(t) else t.Other? && t.authenticated
  }

  /** The method is left pending: a key that would do was offered without a signature, or a conversation goes on. */
  predicate Pends(t: Attempt, meth: string, keys: seq<Key>, valid: bool) {
    if meth == "publickey" then FreshKey(t, keys, valid) && !t.hasSig && t.allowed else t.Other? && t.postponed
  }

  predicate ServerFails(t: Attempt, meth: string) { meth != "publickey" && t.Other? && t.serverFailure }

  lemma CallIs(a: Auth, m: MethodCfg, t: Attempt)
    requires !a.postponed && !a.serverFailure
    ensures var (c, ok) := CallMethod(a, m, t);
      && (ok <==> SaysYes(t, m.name, a.prevKeys, a.valid)) && (c.postponed <==> Pends(t, m.name, a.prevKeys, a.valid))
      && (c.serverFailure <==> ServerFails(t, m.name))
  {
  }

  lemma TriedIs(cfg: Config, a: Auth, es: seq<Event>, r: Request)
    requires r.Userauth? && (Lists(cfg) != [] ==> ListsAgree(ValidLists(cfg), a.lists, es))
    ensures var (c, ok) := Tried(cfg, a, r); var meth := if MethodOf(r.name).Some? then MethodOf(r.name).value else "";
      && (ok <==> Called(cfg, a, es, r.name) && SaysYes(r.attempt, meth, a.prevKeys, a.valid))
      && (c.postponed <==> Called(cfg, a, es, r.name) && Pends(r.attempt, meth, a.prevKeys, a.valid))
      && (c.serverFailure <==> Called(cfg, a, es, r.name) && ServerFails(r.attempt, meth))
  {
    var b := a.(postponed := false, serverFailure := false);
    var m := ByName(Table(cfg.flags, b.noneEnabled), r.name);
    ByNameIs(cfg.flags, b.noneEnabled, r.name);
    if m.Some? {
      TableNames(cfg.flags, b.noneEnabled, m.value);
      AllowedIs(cfg, b.lists, es, m.value.name);
      CallIs(b, m.value, r.attempt);
    }
  }

  /** What userauth_finish does: counts a success, ends the connection, or neither. */
  datatype Verdict = Counted(last: bool) | Ended | NotCounted

  /**
   A yes of an invalid user or from a method still pending ends the connection, and so does one that no list is
   waiting for or that PAM then refuses; what is no success is a failure unless it is pending, and the last one
   allowed ends the connection too.
   */
  function VerdictOn(cfg: Config, a: Auth, es: seq<Event>, yes: bool, name: string, e: Event, p: Policy): Verdict {
    if yes && (!a.valid || a.postponed) then Ended
    else if yes && !p.rootDenied then
      if Advances(cfg, es, e) && !(Finishes(cfg, es, e) && p.pamDenied) then Counted(Finishes(cfg, es, e)) else Ended
    else if a.postponed then NotCounted
    else if a.failures + (if a.serverFailure || (a.attempt <= 1 && name == "none") then 0 else 1) >= cfg.maxTries then Ended
    else NotCounted
  }

  lemma EventNamed(f: Flags, noneEnabled: bool, name: string, sub: Option<string>)
    requires MethodOf(name).Some? && (sub.Some? ==> sub.value in {"pam", "bsdauth"})
    ensures WellNamed(Event(MethodOf(name).value, sub))
  {
    ByNameIs(f, noneEnabled, name);
    TableNames(f, noneEnabled, ByName(Table(f, noneEnabled), name).value);
    ShortNames();
  }

  /** What userauth_finish returns, `o`, is the verdict v, and the success counted is e. */
  predicate ReturnedAs(o: Finish, v: Verdict, e: Event) {
    match o
    case Stop => v == Ended
    case Finished(b, None) => v == NotCounted && !b.success
    case Finished(b, Some(x)) => v == Counted(b.success) && x == e
  }

  lemma FinishNo(cfg: Config, a: Auth, es: seq<Event>, name: string, e: Event, sub: Option<string>, p: Policy)
    requires !a.success
    ensures ReturnedAs(UserauthFinish(cfg, a, false, name, sub, p), VerdictOn(cfg, a, es, false, name, e, p), e)
  {
  }

  lemma FinishYes(cfg: Config, a: Auth, es: seq<Event>, name: string, e: Event, p: Policy)
    requires !a.success && ListPart(cfg, a, es) && MethodOf(name).Some? && a.failures < cfg.maxTries
    requires e.meth == MethodOf(name).value && WellNamed(e)
    ensures ReturnedAs(UserauthFinish(cfg, a, true, name, e.sub, p), VerdictOn(cfg, a, es, true, name, e, p), e)
  {
    ByNameIs(cfg.flags, a.noneEnabled, name);
    NoneIsNone(name);
    AcceptedIff(cfg, a, es, e, p);
  }

  lemma FinishIs(cfg: Config, a: Auth, es: seq<Event>, yes: bool, name: string, sub: Option<string>, p: Policy)
    requires !a.success && ListPart(cfg, a, es) && (sub.Some? ==> sub.value in {"pam", "bsdauth"})
    requires yes ==> MethodOf(name).Some? && a.failures < cfg.maxTries
    ensures var e := Event(if MethodOf(name).Some? then MethodOf(name).value else "", sub);
      ReturnedAs(UserauthFinish(cfg, a, yes, name, sub, p), VerdictOn(cfg, a, es, yes, name, e, p), e)
  {
    var e := Event(if MethodOf(name).Some? then MethodOf(name).value else "", sub);
    if yes {
      EventNamed(cfg.flags, a.noneEnabled, name, sub);
      FinishYes(cfg, a, es, name, e, p);
    } else {
      FinishNo(cfg, a, es, name, e, sub, p);
    }
  }

  /** The session as the request finds it and its method leaves it. */
  function Facing(cfg: Config, s: Session, r: Request): Auth
    requires r.Userauth?
  {
    var a := s.auth.(attempt := s.auth.attempt + 1, valid := ValidUser(s.auth, r));
    var meth := if MethodOf(r.name).Some? then MethodOf(r.name).value else "";
    var called := Called(cfg, s.auth, Events(s.log), r.name);
    a.(postponed := called && Pends(r.attempt, meth, a.prevKeys, a.valid), serverFailure := called && ServerFails(r.attempt, meth))
  }

  predicate Answer(cfg: Config, s: Session, r: Request)
    requires r.Userauth?
  {
    && Called(cfg, s.auth, Events(s.log), r.name)
    && SaysYes(r.attempt, MethodOf(r.name).value, s.auth.prevKeys, ValidUser(s.auth, r))
  }

  /** What becomes of the request r: it is refused, or judged as its method and the lists that are left have it. */
  function Judged(cfg: Config, s: Session, r: Request): Verdict {
    match r
    case Userauth(_, _, name, _, _, p) =>
      if Refused(cfg, s.auth, r) then Ended
      else
        var e := Event(if MethodOf(name).Some? then MethodOf(name).value else "", None);
        VerdictOn(cfg, Facing(cfg, s, r), Events(s.log), Answer(cfg, s, r), name, e, p)
    case InfoResponse(device, yes, again, p) =>
      var e := Event("keyboard-interactive", Some(DeviceName(device)));
      if !s.auth.postponed then NotCounted
      else VerdictOn(cfg, s.auth.(postponed := again && !yes), Events(s.log), yes && s.auth.valid, e.meth, e, p)
    case GssapiFinish(yes, p) =>
      var e := Event("gssapi-with-mic", None);
      if !s.auth.postponed then NotCounted
      else VerdictOn(cfg, s.auth.(postponed := false), Events(s.log), yes, e.meth, e, p)
  }

  /** The outcome o of a request in session s is the verdict v. */
  predicate Agreed(s: Session, o: Outcome, v: Verdict) {
    match o
    case Stopped => v == Ended
    case Running(t) => if t.log == s.log then v == NotCounted && !t.auth.success else v == Counted(t.auth.success)
  }

  lemma AgreedAfter(s: Session, r: Request, f: Finish, v: Verdict, e: Event)
    requires ReturnedAs(f, v, e)
    ensures Agreed(s, if f.Stop? then Stopped else Running(After(s, r, f)), v)
  {
  }

  lemma AdmittedIs(cfg: Config, s: Session, r: Request)
    requires Inv(cfg, s) && !s.auth.success && r.Userauth?
    ensures Admit(cfg, s.auth, r).None? <==> Refused(cfg, s.auth, r)
    ensures var o := Admit(cfg, s.auth, r);
      o.Some? ==> && o.value.attempt == s.auth.attempt + 1 && o.value.valid == ValidUser(s.auth, r)
                  && o.value.noneEnabled == s.auth.noneEnabled
  {
  }

  /** As far as a verdict goes, the two states are the same. */
  predicate SameFacts(a: Auth, b: Auth) {
    && a.valid == b.valid && a.postponed == b.postponed && a.serverFailure == b.serverFailure
    && a.failures == b.failures && a.attempt == b.attempt
  }

  lemma VerdictSame(cfg: Config, a: Auth, b: Auth, es: seq<Event>, yes: bool, name: string, e: Event, p: Policy)
    requires SameFacts(a, b)
    ensures VerdictOn(cfg, a, es, yes, name, e, p) == VerdictOn(cfg, b, es, yes, name, e, p)
  {
  }

  lemma TriedFaces(cfg: Config, s: Session, r: Request, b: Auth)
    requires r.Userauth? && (Lists(cfg) != [] ==> ListsAgree(ValidLists(cfg), b.lists, Events(s.log)))
    requires b.attempt == s.auth.attempt + 1 && b.valid == ValidUser(s.auth, r) && b.failures == s.auth.failures
    requires b.prevKeys == s.auth.prevKeys && b.noneEnabled == s.auth.noneEnabled
    ensures var (c, ok) := Tried(cfg, b, r); (ok <==> Answer(cfg, s, r)) && SameFacts(c, Facing(cfg, s, r))
  {
    TriedIs(cfg, b, Events(s.log), r);
    TriedKeepsUser(cfg, b, r);
  }

  lemma UserauthJudged(cfg: Config, s: Session, r: Request)
    requires Inv(cfg, s) && !s.auth.success && r.Userauth?
    ensures Agreed(s, Step(cfg, s, r), Judged(cfg, s, r))
  {
    StepIsAfter(cfg, s, r);
    AdmittedIs(cfg, s, r);
    if !Refused(cfg, s.auth, r) {
      Admitted(cfg, s, r);
      var b := Admit(cfg, s.auth, r).value;
      FinishJudged(cfg, s, r, b);
      AgreedAfter(s, r, Handle(cfg, s.auth, r), Judged(cfg, s, r), RequestEvent(r));
    }
  }

  /** What the request would count as. */
  function RequestEvent(r: Request): Event
    requires r.Userauth?
  {
    Event(if MethodOf(r.name).Some? then MethodOf(r.name).value else "", None)
  }

  lemma FinishJudged(cfg: Config, s: Session, r: Request, b: Auth)
    requires r.Userauth? && !Refused(cfg, s.auth, r) && !b.success && ListPart(cfg, b, Events(s.log))
    requires b.attempt == s.auth.attempt + 1 && b.valid == ValidUser(s.auth, r) && b.failures == s.auth.failures
    requires b.prevKeys == s.auth.prevKeys && b.noneEnabled == s.auth.noneEnabled
    ensures var (c, ok) := Tried(cfg, b, r); ReturnedAs(UserauthFinish(cfg, c, ok, r.name, None, r.policy), Judged(cfg, s, r), RequestEvent(r))
  {
    var (c, ok) := Tried(cfg, b, r);
    TriedFaces(cfg, s, r, b);
    TriedKeepsUser(cfg, b, r);
    FinishIs(cfg, c, Events(s.log), ok, r.name, None, r.policy);
    VerdictSame(cfg, c, Facing(cfg, s, r), Events(s.log), ok, r.name, RequestEvent(r), r.policy);
  }

  lemma ExchangeJudged(cfg: Config, s: Session, r: Request)
    requires Inv(cfg, s) && !s.auth.success && !r.Userauth?
    ensures Agreed(s, Step(cfg, s, r), Judged(cfg, s, r))
  {
    StepIsAfter(cfg, s, r);
    LaterIs();
    if s.auth.postponed {
      var e := Event("gssapi-with-mic", None);
      match r {
        case InfoResponse(d, yes, again, p) =>
          FinishIs(cfg, s.auth.(postponed := again && !yes), Events(s.log), yes && s.auth.valid, "keyboard-interactive", Some(DeviceName(d)), p);
          e := Event("keyboard-interactive", Some(DeviceName(d)));
        case GssapiFinish(yes, p) =>
          FinishIs(cfg, s.auth.(postponed := false), Events(s.log), yes, "gssapi-with-mic", None, p);
      }
      AgreedAfter(s, r, Handle(cfg, s.auth, r), Judged(cfg, s, r), e);
    }
  }

  /**
   After any run, a request is counted as a success, is counted as the last one needed, ends the connection, or does
   none of these exactly as Judged says, from the configured lists, the successes so far and the request's checks.
   */
  lemma RequestIsJudged(cfg: Config, rs: seq<Request>, r: Request)
    requires Run(cfg, Start, rs).Running? && !Run(cfg, Start, rs).session.auth.success
    ensures var s := Run(cfg, Start, rs).session; Agreed(s, Step(cfg, s, r), Judged(cfg, s, r))
  {
    StartInv(cfg);
    RunKeeps(cfg, Start, rs);
    if r.Userauth? {
      UserauthJudged(cfg, Run(cfg, Start, rs).session, r);
    } else {
      ExchangeJudged(cfg, Run(cfg, Start, rs).session, r);
    }
  }

  // ---- "none" is tried at most once

  lemma CallNone(a: Auth, m: MethodCfg, t: Attempt)
    ensures CallMethod(a, m, t).0.noneEnabled <==> a.noneEnabled && m.name != "none"
  {
  }

  lemma TriedNone(cfg: Config, a: Auth, es: seq<Event>, r: Request)
    requires r.Userauth? && (Lists(cfg) != [] ==> ListsAgree(ValidLists(cfg), a.lists, es))
    ensures Tried(cfg, a, r).0.noneEnabled <==> a.noneEnabled && !(r.name == "none" && Called(cfg, a, es, "none"))
  {
    var b := a.(postponed := false, serverFailure := false);
    var m := ByName(Table(cfg.flags, b.noneEnabled), r.name);
    ByNameIs(cfg.flags, b.noneEnabled, r.name);
    if m.Some? {
      NoneIsNone(r.name);
      TableNames(cfg.flags, b.noneEnabled, m.value);
      AllowedIs(cfg, b.lists, es, m.value.name);
      CallNone(b, m.value, r.attempt);
    }
  }

  /** The request calls the method "none". */
  predicate CallsNone(cfg: Config, s: Session, r: Request) {
    r.Userauth? && r.name == "none" && Called(cfg, s.auth, Events(s.log), "none")
  }

  lemma SameCall(cfg: Config, a: Auth, b: Auth, es: seq<Event>, name: string)
    requires a.failures == b.failures && a.noneEnabled == b.noneEnabled
    ensures Called(cfg, a, es, name) <==> Called(cfg, b, es, name)
  {
  }

  lemma UserauthNone(cfg: Config, s: Session, r: Request)
    requires Inv(cfg, s) && !s.auth.success && r.Userauth? && Handle(cfg, s.auth, r).Finished?
    ensures Handle(cfg, s.auth, r).auth.noneEnabled <==> s.auth.noneEnabled && !CallsNone(cfg, s, r)
  {
    AdmittedIs(cfg, s, r);
    Admitted(cfg, s, r);
    var b := Admit(cfg, s.auth, r).value;
    TriedNone(cfg, b, Events(s.log), r);
    SameCall(cfg, b, s.auth, Events(s.log), "none");
    var (c, ok) := Tried(cfg, b, r);
    FinishFrame(cfg, c, ok, r.name, None, r.policy);
  }

  lemma ExchangeNone(cfg: Config, s: Session, r: Request)
    requires !s.auth.success && !r.Userauth? && Handle(cfg, s.auth, r).Finished?
    ensures Handle(cfg, s.auth, r).auth.noneEnabled == s.auth.noneEnabled
  {
    match r
    case InfoResponse(d, ok, again, p) =>
      FinishFrame(cfg, s.auth.(postponed := again && !ok), ok && s.auth.valid, "keyboard-interactive", Some(DeviceName(d)), p);
    case GssapiFinish(ok, p) =>
      FinishFrame(cfg, s.auth.(postponed := false), ok, "gssapi-with-mic", None, p);
  }

  /** "none" stays enabled until it is called. */
  lemma StepNone(cfg: Config, s: Session, r: Request)
    requires Inv(cfg, s) && !s.auth.success && Step(cfg, s, r).Running?
    ensures Step(cfg, s, r).session.auth.noneEnabled <==> s.auth.noneEnabled && !CallsNone(cfg, s, r)
  {
    StepIsAfter(cfg, s, r);
    if r.Userauth? {
      UserauthNone(cfg, s, r);
    } else {
      ExchangeNone(cfg, s, r);
    }
  }

  predicate NoneIn(log: seq<Success>) { exists i :: 0 <= i < |log| && log[i].event.meth == "none" }

  /** At most one success was by "none", and then it is disabled. */
  predicate NoneOnce(s: Session) {
    && (NoneIn(s.log) ==> !s.auth.noneEnabled)
    && forall i, j :: 0 <= i < j < |s.log| ==> !(s.log[i].event.meth == "none" && s.log[j].event.meth == "none")
  }

  lemma CountedCalls(cfg: Config, s: Session, r: Request)
    requires r.Userauth? && Judged(cfg, s, r).Counted?
    ensures Called(cfg, s.auth, Events(s.log), r.name)
  {
  }

  lemma NoneByRequest(r: Request, x: Success)
    requires Earned(r, x) && x.event.meth == "none"
    ensures r.Userauth? && r.name == "none"
  {
    if r.Userauth? {
      NoneIsNone(r.name);
    }
  }

  /** A success by "none" is one of a request that called it. */
  lemma NoneCounted(cfg: Config, s: Session, r: Request)
    requires Inv(cfg, s) && !s.auth.success && Step(cfg, s, r).Running?
    requires var t := Step(cfg, s, r).session; t.log != s.log && t.log[|t.log| - 1].event.meth == "none"
    ensures CallsNone(cfg, s, r) && s.auth.noneEnabled
  {
    StepEarned(cfg, s, r);
    var t := Step(cfg, s, r).session;
    NoneByRequest(r, t.log[|s.log|]);
    UserauthJudged(cfg, s, r);
    CountedCalls(cfg, s, r);
  }

  lemma NoneOnceLonger(s: Session, t: Session, x: Success)
    requires NoneOnce(s) && t.log == s.log + [x] && (t.auth.noneEnabled ==> s.auth.noneEnabled)
    requires x.event.meth == "none" ==> s.auth.noneEnabled && !t.auth.noneEnabled
    ensures NoneOnce(t)
  {
    if NoneIn(t.log) && x.event.meth != "none" {
      var i :| 0 <= i < |t.log| && t.log[i].event.meth == "none";
      assert s.log[i].event.meth == "none";
    }
    forall i, j | 0 <= i < j < |t.log| ensures !(t.log[i].event.meth == "none" && t.log[j].event.meth == "none") {
      if j == |s.log| && t.log[i].event.meth == "none" {
        assert s.log[i].event.meth == "none";
      }
    }
  }

  lemma StepNoneOnce(cfg: Config, s: Session, r: Request)
    requires Inv(cfg, s) && !s.auth.success && Step(cfg, s, r).Running? && NoneOnce(s)
    ensures NoneOnce(Step(cfg, s, r).session)
  {
    var t := Step(cfg, s, r).session;
    StepEarned(cfg, s, r);
    StepNone(cfg, s, r);
    if t.log != s.log {
      if t.log[|s.log|].event.meth == "none" {
        NoneCounted(cfg, s, r);
      }
      NoneOnceLonger(s, t, t.log[|s.log|]);
    }
  }

  lemma {:induction false} RunNoneOnce(cfg: Config, s: Session, rs: seq<Request>)
    requires Inv(cfg, s) && NoneOnce(s) && Run(cfg, s, rs).Running?
    ensures NoneOnce(Run(cfg, s, rs).session)
    decreases rs
  {
    if s.auth.success {
      SuccessStays(cfg, s, rs);
    } else if rs != [] {
      KeepStep(cfg, s, rs[0]);
      StepNoneOnce(cfg, s, rs[0]);
      RunNoneOnce(cfg, Step(cfg, s, rs[0]).session, rs[1..]);
    }
  }

  /** In every run "none" succeeds at most once, and is disabled from the first request that calls it. */
  lemma NoneSucceedsOnce(cfg: Config, rs: seq<Request>)
    requires Run(cfg, Start, rs).Running?
    ensures NoneOnce(Run(cfg, Start, rs).session)
  {
    StartInv(cfg);
    RunNoneOnce(cfg, Start, rs);
  }
}
