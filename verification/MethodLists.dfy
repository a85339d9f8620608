/**
 AuthenticationMethods lists (auth2.c, auth2-methods.c): comma-separated strings that are edited in place,
 and the lists of method tokens they stand for.
 */
module MethodLists {
  import opened Basics

  // ---- strings and tokens

  /** Length of the part of `s` before the first `c`. */
  function Span(s: string, c: char): (n: nat)
    ensures n <= |s| && c !in s[..n] && (n < |s| ==> s[n] == c)
  {
    if s == "" || s[0] == c then 0 else
      var n := 1 + Span(s[1..], c);
      assert s[..n] == [s[0]] + s[1..][..n - 1];
      n
  }

  /** The tokens strsep(3) cuts a string into. */
  function Tokens(s: string): (ts: seq<string>)
    ensures |ts| > 0 && forall t :: t in ts ==> ',' !in t
    decreases |s|
  {
    var n := Span(s, ',');
    if n == |s| then [s] else [s[..n]] + Tokens(s[n + 1..])
  }

  function Join(ts: seq<string>): string {
    if ts == [] then "" else if |ts| == 1 then ts[0] else ts[0] + "," + Join(ts[1..])
  }

  predicate CommaFree(ts: seq<string>) { forall t :: t in ts ==> ',' !in t }

  lemma {:induction false} SpanUnique(s: string, c: char, n: nat)
    requires n <= |s| && c !in s[..n] && (n < |s| ==> s[n] == c)
    ensures Span(s, c) == n
  {
    if n > 0 {
      assert s[..n][0] == s[0] && s[1..][..n - 1] == s[..n][1..];
      SpanUnique(s[1..], c, n - 1);
    }
  }

  lemma JoinCons(t: string, ts: seq<string>)
    requires ts != []
    ensures Join([t] + ts) == t + "," + Join(ts)
  {
    assert ([t] + ts)[1..] == ts;
  }

  lemma SplitAt(s: string, n: nat)
    requires n < |s| && s[n] == ','
    ensures s == s[..n] + "," + s[n + 1..]
  {
  }

  lemma {:induction false} JoinTokens(s: string)
    ensures Join(Tokens(s)) == s
    decreases |s|
  {
    var n := Span(s, ',');
    if n < |s| {
      var rest := s[n + 1..];
      JoinTokens(rest);
      JoinCons(s[..n], Tokens(rest));
      SplitAt(s, n);
    }
  }

  lemma TokensOne(t: string)
    requires ',' !in t
    ensures Tokens(t) == [t]
  {
    assert t[..|t|] == t;
    SpanUnique(t, ',', |t|);
  }

  lemma TokensCons(t: string, rest: string)
    requires ',' !in t
    ensures Tokens(t + "," + rest) == [t] + Tokens(rest)
  {
    var s, n := t + "," + rest, |t|;
    assert s[..n] == t && s[n] == ',' && s[n + 1..] == rest;
    SpanUnique(s, ',', n);
  }

  lemma {:induction false} TokensJoin(ts: seq<string>)
    requires ts != [] && CommaFree(ts)
    ensures Tokens(Join(ts)) == ts
  {
    var t, rest := ts[0], ts[1..];
    assert t in ts && ts == [t] + rest;
    if rest == [] {
      TokensOne(t);
    } else {
      TokensJoin(rest);
      JoinCons(t, rest);
      TokensCons(t, Join(rest));
    }
  }

  // ---- list_starts_with and remove_method

  datatype Match = MatchNone | MatchMethod | MatchBoth | MatchPartial

  /** A C string has a NUL after its last character. */
  function CharAt(s: string, i: nat): char { if i < |s| then s[i] else '\0' }

  predicate StartsWithAt(s: string, i: nat, prefix: string) {
    i + |prefix| <= |s| && s[i..i + |prefix|] == prefix
  }

  function ListStartsWith(methods: string, meth: string, sub: Option<string>): Match {
    var l := |meth|;
    if !StartsWithAt(methods, 0, meth) then MatchNone
    else if CharAt(methods, l) == ':' then
      if sub.None? then MatchPartial
      else if !StartsWithAt(methods, l + 1, sub.value) then MatchNone
      else if CharAt(methods, l + 1 + |sub.value|) in {',', '\0'} then MatchBoth
      else MatchNone
    else if CharAt(methods, l) in {',', '\0'} then MatchMethod
    else MatchNone
  }

  /** The list after the method has been removed from its start, if the list did start with it. */
  function RemoveMethod(methods: string, meth: string, sub: Option<string>): Option<string> {
    var m := ListStartsWith(methods, meth, sub);
    if m != MatchMethod && m != MatchBoth then None
    else
      var p := if m == MatchBoth then |meth| + 1 + |sub.value| else |meth|;
      var q := if CharAt(methods, p) == ',' then p + 1 else p;
      if q <= |methods| then Some(methods[q..]) else None
  }

  // ---- what that does to the tokens

  /** A successful authentication: method name and, for keyboard-interactive, its device. */
  datatype Event = Event(meth: string, sub: Option<string>)

  /** Method names hold no comma or colon, device names no comma; neither holds a NUL. */
  predicate WellNamed(e: Event) {
    && e.meth != "" && ',' !in e.meth && ':' !in e.meth && '\0' !in e.meth
    && (e.sub.Some? ==> ',' !in e.sub.value && '\0' !in e.sub.value)
  }

  predicate Matches(token: string, e: Event) {
    token == e.meth || (e.sub.Some? && token == e.meth + ":" + e.sub.value)
  }

  /** The first token of a list, and the list that follows it. */
  function Head(s: string): string { s[..Span(s, ',')] }

  function Tail(s: string): string { if Span(s, ',') < |s| then s[Span(s, ',') + 1..] else "" }

  lemma HeadIsPrefix(s: string, t: string)
    requires ',' !in t && StartsWithAt(s, 0, t) && CharAt(s, |t|) in {',', '\0'} && '\0' !in s
    ensures Head(s) == t && Tail(s) == s[if |t| < |s| then |t| + 1 else |s|..]
  {
    assert s[..|t|] == s[0..|t|] == t;
    SpanUnique(s, ',', |t|);
  }

  lemma PrefixOfHead(s: string, t: string)
    requires Head(s) == t
    ensures StartsWithAt(s, 0, t) && CharAt(s, |t|) in {',', '\0'}
  {
    assert s[..|t|] == s[0..|t|];
  }

  lemma MatchingHeadIsFound(s: string, e: Event)
    requires Matches(Head(s), e)
    ensures ListStartsWith(s, e.meth, e.sub) in {MatchMethod, MatchBoth}
  {
    var l := |e.meth|;
    PrefixOfHead(s, Head(s));
    if Head(s) == e.meth {
    } else {
      var t := e.meth + ":" + e.sub.value;
      assert s[0..|t|] == t;
      assert s[0..l] == t[0..l] == e.meth;
      assert s[l] == t[l] == ':';
      assert s[l + 1..|t|] == t[l + 1..] == e.sub.value;
    }
  }

  /** remove_method removes exactly a matching first token. */
  lemma RemoveIsTail(s: string, e: Event)
    requires WellNamed(e) && '\0' !in s
    ensures RemoveMethod(s, e.meth, e.sub) == if Matches(Head(s), e) then Some(Tail(s)) else None
  {
    var m := ListStartsWith(s, e.meth, e.sub);
    var l := |e.meth|;
    if Matches(Head(s), e) {
      MatchingHeadIsFound(s, e);
    }
    if m == MatchMethod {
      HeadIsPrefix(s, e.meth);
    } else if m == MatchBoth {
      var t := e.meth + ":" + e.sub.value;
      assert s[0..|t|] == s[0..l] + [s[l]] + s[l + 1..|t|];
      HeadIsPrefix(s, t);
    }
  }

  // ---- a list over a whole run

  /** Tokens left of a list after a run of successes, each removing the first token if it matches. */
  function Residual(ts: seq<string>, es: seq<Event>): (rs: seq<string>)
    decreases |es|
  {
    if es == [] then ts
    else
      var rs := Residual(ts, es[..|es| - 1]);
      if rs != [] && Matches(rs[0], es[|es| - 1]) then rs[1..] else rs
  }

  /** Token k of `ts` was matched by event `at[k]`, in order. */
  predicate Embeds(ts: seq<string>, es: seq<Event>, at: seq<nat>) {
    && |at| == |ts|
    && (forall k :: 0 <= k < |at| ==> at[k] < |es| && Matches(ts[k], es[at[k]]))
    && (forall j, k :: 0 <= j < k < |at| ==> at[j] < at[k])
  }

  lemma {:induction false} ResidualIsSuffix(ts: seq<string>, es: seq<Event>)
    ensures |Residual(ts, es)| <= |ts| && Residual(ts, es) == ts[|ts| - |Residual(ts, es)|..]
    decreases |es|
  {
    if es != [] {
      ResidualIsSuffix(ts, es[..|es| - 1]);
    }
  }

  lemma EmbedsStill(ts: seq<string>, es: seq<Event>, e: Event, at: seq<nat>)
    requires Embeds(ts, es, at)
    ensures Embeds(ts, es + [e], at)
  {
    forall k | 0 <= k < |at| ensures at[k] < |es + [e]| && Matches(ts[k], (es + [e])[at[k]]) {
      assert (es + [e])[at[k]] == es[at[k]];
    }
  }

  lemma EmbedsOneMore(ts: seq<string>, t: string, es: seq<Event>, e: Event, at: seq<nat>)
    requires Embeds(ts, es, at) && Matches(t, e)
    ensures Embeds(ts + [t], es + [e], at + [|es|])
  {
    var us, fs, bt := ts + [t], es + [e], at + [|es|];
    EmbedsStill(ts, es, e, at);
    forall k | 0 <= k < |bt| ensures bt[k] < |fs| && Matches(us[k], fs[bt[k]]) {
      if k < |at| {
        assert us[k] == ts[k] && bt[k] == at[k];
      }
    }
  }

  /** The consumed part of a list was matched in order by some of the events. */
  lemma {:induction false} ConsumedEmbeds(ts: seq<string>, es: seq<Event>) returns (at: seq<nat>)
    ensures |Residual(ts, es)| <= |ts| && Embeds(ts[..|ts| - |Residual(ts, es)|], es, at)
    decreases |es|
  {
    if es == [] {
      at := [];
    } else {
      var fs, e := es[..|es| - 1], es[|es| - 1];
      at := ConsumedEmbeds(ts, fs);
      at := ConsumesNext(ts, fs, e, at);
      assert fs + [e] == es;
    }
  }

  lemma ConsumesNext(ts: seq<string>, es: seq<Event>, e: Event, at: seq<nat>) returns (bt: seq<nat>)
    requires |Residual(ts, es)| <= |ts| && Embeds(ts[..|ts| - |Residual(ts, es)|], es, at)
    ensures var rs := Residual(ts, es + [e]); |rs| <= |ts| && Embeds(ts[..|ts| - |rs|], es + [e], bt)
  {
    var rs := Residual(ts, es);
    var n := |ts| - |rs|;
    ResidualIsSuffix(ts, es);
    assert (es + [e])[..|es|] == es;
    if rs != [] && Matches(rs[0], e) {
      assert ts[..n + 1] == ts[..n] + [ts[n]];
      EmbedsOneMore(ts[..n], ts[n], es, e, at);
      bt := at + [|es|];
    } else {
      EmbedsStill(ts[..n], es, e, at);
      bt := at;
    }
  }

  /** Consuming greedily loses nothing: any in-order match of a prefix of the list has been consumed. */
  lemma {:induction false} GreedyIsComplete(ts: seq<string>, n: nat, es: seq<Event>, at: seq<nat>)
    requires n <= |ts| && Embeds(ts[..n], es, at)
    ensures |Residual(ts, es)| <= |ts| - n
    decreases |es|
  {
    ResidualIsSuffix(ts, es);
    if n > 0 {
      assert at[n - 1] < |es|;
      var fs := es[..|es| - 1];
      ResidualIsSuffix(ts, fs);
      if at[n - 1] == |es| - 1 {
        var us, bt := ts[..n - 1], at[..n - 1];
        forall k | 0 <= k < |bt| ensures bt[k] < |fs| && Matches(us[k], fs[bt[k]]) {
          assert at[k] < at[n - 1] && Matches(ts[..n][k], es[at[k]]);
        }
        GreedyIsComplete(ts, n - 1, fs, bt);
        assert Matches(ts[..n][n - 1], es[|es| - 1]);
      } else {
        forall k | 0 <= k < |at| ensures at[k] < |fs| && Matches(ts[..n][k], fs[at[k]]) {
          assert k < n - 1 ==> at[k] < at[n - 1];
          assert Matches(ts[..n][k], es[at[k]]);
        }
        GreedyIsComplete(ts, n, fs, at);
      }
    }
  }

  /** A list is used up exactly when its tokens, in order, are matched by a subsequence of the events. */
  lemma CompleteIff(ts: seq<string>, es: seq<Event>)
    ensures Residual(ts, es) == [] <==> exists at :: Embeds(ts, es, at)
  {
    assert ts[..|ts|] == ts;
    if Residual(ts, es) == [] {
      var at := ConsumedEmbeds(ts, es);
    }
    forall at | Embeds(ts, es, at) ensures Residual(ts, es) == [] {
      GreedyIsComplete(ts, |ts|, es, at);
    }
  }
}
