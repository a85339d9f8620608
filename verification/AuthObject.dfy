/**
 The Authctxt structure and the functions of auth2.c and auth2-pubkey.c that update it in place. Each is
 proved to do what UserAuth says.
 */
module AuthObject {
  import opened Basics
  import opened MethodLists
  import U = UserAuth
  import opened UserAuth

  class Authctxt {
    var user: string
    var service: string
    var valid: bool
    var attempt: nat
    var failures: nat
    var success: bool
    var postponed: bool
    var serverFailure: bool
    var noneEnabled: bool
    var authMethods: seq<CString>
    var prevKeys: seq<Key>

    function View(): Auth
      reads this
    {
      Auth(user, service, valid, attempt, failures, success, postponed, serverFailure, noneEnabled,
           authMethods, prevKeys)
    }

    constructor ()
      ensures View() == Fresh
    {
      user, service, valid := "", "", false;
      attempt, failures := 0, 0;
      success, postponed, serverFailure, noneEnabled := false, false, false, true;
      authMethods, prevKeys := [], [];
    }

    /** auth2_setup_methods_lists; false when no list is left */
    method SetupMethodsLists(cfg: Config) returns (ok: bool)
      modifies `authMethods
      ensures Lists(cfg) != [] ==> authMethods == ValidLists(cfg)
      ensures Lists(cfg) == [] ==> authMethods == old(authMethods)
      ensures ok <==> Lists(cfg) == [] || authMethods != []
    {
      var lists := Lists(cfg);
      if lists == [] {
        return true;
      }
      var table := Table(cfg.flags, true);
      authMethods := [];
      assert lists[0..] == lists;
      for i := 0 to |lists|
        invariant authMethods + Enabled(lists[i..], table) == ValidLists(cfg)
      {
        var usable := CheckMethodsValid(lists[i], table, true);
        ghost var before := authMethods;
        if usable {
          authMethods := authMethods + [lists[i]];
        }
        EnabledStep(before, lists, i, table);
      }
      assert authMethods + [] == authMethods;
      return authMethods != [];
    }

    /** remove_method applied to one stored list */
    method RemoveFrom(i: nat, e: Event) returns (removed: bool)
      requires i < |authMethods|
      modifies `authMethods
      ensures var r := RemoveMethod(old(authMethods)[i], e.meth, e.sub);
        && removed == r.Some?
        && authMethods == if r.Some? then old(authMethods)[i := r.value] else old(authMethods)
    {
      var methods := authMethods[i];
      var found := ListStartsWith(methods, e.meth, e.sub);
      if found != MatchMethod && found != MatchBoth {
        return false;
      }
      var p := |e.meth|;
      if e.sub.Some? && found == MatchBoth {
        p := p + 1 + |e.sub.value|;
      }
      if CharAt(methods, p) == ',' {
        p := p + 1;
      }
      authMethods := authMethods[i := methods[p..]];
      return true;
    }

    /** auth2_update_methods_lists; None stands for the fatal error */
    method UpdateMethodsLists(e: Event) returns (complete: Option<bool>)
      modifies `authMethods
      ensures match UpdateLists(old(authMethods), 0, e)
        case Complete(ls) => complete == Some(true) && authMethods == ls
        case Remaining(ls, found) => authMethods == ls && complete == if found then Some(false) else None
    {
      var found, i := false, 0;
      ghost var u := UpdateLists(authMethods, 0, e);
      while i < |authMethods|
        invariant i <= |authMethods|
        invariant var v := UpdateLists(authMethods, i, e);
          u == if v.Remaining? then v.(found := v.found || found) else v
      {
        var removed := RemoveFrom(i, e);
        if removed {
          found := true;
          if authMethods[i] == "" {
            return Some(true);
          }
        }
        i := i + 1;
      }
      return if found then Some(false) else None;
    }

    /** auth2_key_already_used */
    method KeyAlreadyUsed(key: Key) returns (used: bool)
      ensures used <==> KeyUsed(prevKeys, key)
    {
      for i := 0 to |prevKeys|
        invariant forall j :: 0 <= j < i ==> !EqualPublic(key, prevKeys[j])
      {
        if EqualPublic(key, prevKeys[i]) {
          return true;
        }
      }
      return false;
    }

    /** auth2_record_key */
    method RecordKey(authenticated: bool, key: Key)
      modifies `prevKeys
      ensures prevKeys == if authenticated then old(prevKeys) + [key] else old(prevKeys)
    {
      if !authenticated {
        return;
      }
      prevKeys := prevKeys + [key];
    }

    /** userauth_pubkey */
    method UserauthPubkey(t: Attempt) returns (authenticated: bool)
      requires t.Pubkey?
      modifies `prevKeys, `postponed
      ensures U.UserauthPubkey(old(View()), t) == (View(), authenticated)
    {
      authenticated := false;
      if t.key.None? {
        return;
      }
      var used := KeyAlreadyUsed(t.key.value);
      if used {
        return;
      }
      if !t.certOk {
        return;
      }
      if t.hasSig {
        if !valid {
          return;
        }
        if t.allowed && t.verified {
          authenticated := true;
        }
        if authenticated && !t.detailsOk {
          return false;
        }
        RecordKey(authenticated, t.key.value);
      } else {
        if !valid {
          return;
        }
        if t.allowed {
          postponed := true;
        }
      }
      if authenticated && !t.optionsOk {
        authenticated := false;
      }
    }

    /** auth2_method_allowed */
    method MethodAllowed(cfg: Config, meth: string, sub: Option<string>) returns (ok: bool)
      ensures ok <==> Allowed(cfg, authMethods, meth, sub)
    {
      if Lists(cfg) == [] {
        return true;
      }
      for i := 0 to |authMethods|
        invariant forall j :: 0 <= j < i ==> ListStartsWith(authMethods[j], meth, sub) == MatchNone
      {
        if ListStartsWith(authMethods[i], meth, sub) != MatchNone {
          return true;
        }
      }
      return false;
    }

    /** The failure branch at the end of userauth_finish; false when the limit is reached. */
    method CountFailure(cfg: Config, partial: bool, meth: string) returns (ok: bool)
      modifies `failures
      ensures U.CountFailure(cfg, old(View()), partial, meth) == if ok then Finished(View(), None) else Stop
    {
      if !partial && !serverFailure && (attempt > 1 || meth != "none") {
        failures := failures + 1;
      }
      return failures < cfg.maxTries;
    }

    /** userauth_finish from the update of the lists on, for a success that counts */
    method Accept(cfg: Config, e: Event, p: Policy) returns (ok: bool)
      requires !postponed
      modifies `authMethods, `failures, `success
      ensures Accepted(cfg, old(View()), e, p) == if ok then Finished(View(), Some(e)) else Stop
    {
      if Lists(cfg) != [] {
        var complete := UpdateMethodsLists(e);
        if complete.None? {
          return false;
        }
        if !complete.value {
          ok := CountFailure(cfg, true, e.meth);
          return;
        }
      }
      if p.pamDenied {
        return false;
      }
      success := true;
      return true;
    }

    /** userauth_finish; `ok` is false when the connection is closed */
    method UserauthFinish(cfg: Config, authenticated: bool, name: string, sub: Option<string>, p: Policy)
      returns (ok: bool, accepted: Option<Event>)
      modifies `authMethods, `failures, `success
      ensures U.UserauthFinish(cfg, old(View()), authenticated, name, sub, p) == if ok then Finished(View(), accepted) else Stop
    {
      var meth := name;
      if authenticated {
        if !valid || postponed {
          return false, None;
        }
        var m := ByName(Table(cfg.flags, noneEnabled), meth);
        if m.None? {
          return false, None;
        }
        meth := m.value.name;
      }
      if authenticated && !p.rootDenied {
        ok := Accept(cfg, Event(meth, sub), p);
        return ok, Some(Event(meth, sub));
      }
      if postponed {
        return true, None;
      }
      ok := CountFailure(cfg, false, meth);
      return ok, None;
    }

    /** m->userauth */
    method CallMethod(m: MethodCfg, t: Attempt) returns (authenticated: bool)
      modifies `prevKeys, `postponed, `serverFailure, `noneEnabled
      ensures U.CallMethod(old(View()), m, t) == (View(), authenticated)
    {
      authenticated := false;
      if m.name == "none" {
        noneEnabled := false;
      }
      if m.name == "publickey" {
        if t.Pubkey? {
          authenticated := UserauthPubkey(t);
        }
      } else if t.Other? {
        postponed, serverFailure := postponed || t.postponed, serverFailure || t.serverFailure;
        authenticated := t.authenticated;
      }
    }

    /** input_userauth_request before the method is looked up; false when the connection is closed */
    method Admit(cfg: Config, r: Request) returns (ok: bool)
      requires r.Userauth?
      modifies `attempt, `user, `service, `valid, `authMethods
      ensures ok ==> U.Admit(cfg, old(View()), r) == Some(View())
      ensures !ok ==> U.Admit(cfg, old(View()), r) == None
    {
      if attempt >= 1024 {
        return false;
      }
      attempt := attempt + 1;
      if attempt == 1 {
        user, service := r.user, r.service;
        valid := r.userOk && r.service == "ssh-connection";
        ok := SetupMethodsLists(cfg);
      } else {
        ok := r.user == user && r.service == service;
      }
    }

    /** authmethod_lookup */
    method LookupMethod(cfg: Config, name: string) returns (m: Option<MethodCfg>)
      ensures m == Lookup(cfg, View(), name)
    {
      m := ByName(Table(cfg.flags, noneEnabled), name);
      if m.Some? {
        var allowed := m.value.enabled;
        if allowed {
          allowed := MethodAllowed(cfg, m.value.name, None);
        }
        if !allowed {
          m := None;
        }
      }
    }

    /** The attempt itself: reset, look the method up, call it. */
    method TryMethod(cfg: Config, r: Request) returns (authenticated: bool)
      requires r.Userauth?
      modifies `prevKeys, `postponed, `serverFailure, `noneEnabled
      ensures Tried(cfg, old(View()), r) == (View(), authenticated)
    {
      postponed, serverFailure := false, false;
      authenticated := false;
      var m := LookupMethod(cfg, r.name);
      if m.Some? && failures < cfg.maxTries {
        authenticated := CallMethod(m.value, r.attempt);
      }
    }

    /** input_userauth_request */
    method InputUserauthRequest(cfg: Config, r: Request) returns (ok: bool, accepted: Option<Event>)
      requires r.Userauth?
      modifies this
      ensures Handle(cfg, old(View()), r) == if ok then Finished(View(), accepted) else Stop
    {
      ok := Admit(cfg, r);
      if !ok {
        return false, None;
      }
      var authenticated := TryMethod(cfg, r);
      ok, accepted := UserauthFinish(cfg, authenticated, r.name, None, r.policy);
    }
  }

  lemma EnabledStep(before: seq<CString>, lists: seq<CString>, i: nat, table: seq<MethodCfg>)
    requires i < |lists|
    ensures before + Enabled(lists[i..], table)
      == (if MethodsValid(lists[i], table, true) then before + [lists[i]] else before) + Enabled(lists[i + 1..], table)
  {
    var rest := Enabled(lists[i + 1..], table);
    assert lists[i..][0] == lists[i] && lists[i..][1..] == lists[i + 1..];
    assert before + ([lists[i]] + rest) == (before + [lists[i]]) + rest && [] + rest == rest;
  }
}
