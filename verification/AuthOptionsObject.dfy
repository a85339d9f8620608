/** sshauthopt_serialise and sshauthopt_deserialise over a buffer. */
module AuthOptionsObject {
  import opened Basics
  import opened Wire
  import opened AuthOptions
  import opened SshBuffer

  /** The buffer has gained `b`, or there was no room for it. */
  twostate predicate Gained(m: Sshbuf, b: Bytes, ok: bool)
    reads m
  {
    && (ok <==> |old(m.data)| + |b| <= SSHBUF_SIZE_MAX)
    && (ok ==> m.data == old(m.data) + b)
  }

  lemma Chain(d: Bytes, a: Bytes, b: Bytes, c: Bytes, e: Bytes)
    ensures (((d + a) + b) + c) + e == d + (a + (b + (c + e)))
  {
  }

  method PutU8(m: Sshbuf, x: int) returns (ok: bool)
    modifies m
    ensures Gained(m, [U8(x)], ok)
  {
    ok := m.Put([U8(x)]);
  }

  method SerialiseFlags(m: Sshbuf, f: Flags) returns (ok: bool)
    modifies m
    ensures Gained(m, PutFlags(f), ok)
  {
    ok := SerialiseMore(m, f.portForwarding, f.agentForwarding, f.x11Forwarding);
    if !ok { return; }
    ok := SerialiseMore(m, f.pty, f.userRc, f.restricted);
    if !ok { return; }
    ok := SerialiseMore(m, f.certAuthority, f.noRequireUserPresence, f.requireVerify);
  }

  /** Three of the flags, each put if the one before it was. */
  method SerialiseMore(m: Sshbuf, x: int, y: int, z: int) returns (ok: bool)
    modifies m
    ensures Gained(m, [U8(x), U8(y), U8(z)], ok)
  {
    ok := PutU8(m, x);
    if !ok { return; }
    ok := PutU8(m, y);
    if !ok { return; }
    ok := PutU8(m, z);
  }

  method SerialiseScalars(m: Sshbuf, s: Scalars) returns (ok: bool)
    modifies m
    ensures Gained(m, PutScalars(s), ok)
  {
    ok := m.Put(PutInt(s.validBefore, 8));
    if !ok { return; }
    ok := m.Put(PutInt(if s.tun == -1 then 1 else 0, 1));
    if !ok { return; }
    ok := m.Put(PutInt(if s.tun < 0 then 0 else s.tun, 4));
  }

  /** serialise_nullable_string */
  method SerialiseNullable(m: Sshbuf, s: Option<Bytes>) returns (ok: bool)
    modifies m
    ensures Gained(m, PutNullable(s), ok)
  {
    ok := m.Put(PutInt(if s.None? then 1 else 0, 1));
    if !ok { return; }
    ok := m.PutString(if s.None? then [] else s.value);
  }

  method SerialiseStrings(m: Sshbuf, s: Strings) returns (ok: bool)
    modifies m
    ensures Gained(m, PutStrings(s), ok)
  {
    ok := SerialiseNullable(m, s.principals);
    if !ok { return; }
    ok := SerialiseNullable(m, s.command);
    if !ok { return; }
    ok := SerialiseNullable(m, s.hostCert);
    if !ok { return; }
    ok := SerialiseNullable(m, s.hostKeys);
    Chain(old(m.data), PutNullable(s.principals), PutNullable(s.command), PutNullable(s.hostCert), PutNullable(s.hostKeys));
  }

  lemma {:induction false} ItemsSplit(a: seq<Bytes>, i: nat)
    requires i <= |a|
    ensures PutItems(a) == PutItems(a[..i]) + PutItems(a[i..])
  {
    if i > 0 {
      ItemsSplit(a[1..], i - 1);
      assert a[1..][..i - 1] == a[..i][1..] && a[1..][i - 1..] == a[i..];
    } else {
      assert a[..0] == [] && a[0..] == a;
    }
  }

  lemma ItemsNext(a: seq<Bytes>, i: nat)
    requires i < |a|
    ensures PutItems(a[..i + 1]) == PutItems(a[..i]) + PutString(a[i]) && |PutItems(a[..i + 1])| <= |PutItems(a)|
  {
    ItemsSplit(a, i + 1);
    ItemsSplit(a[..i + 1], i);
    assert a[..i + 1][..i] == a[..i] && a[..i + 1][i..] == [a[i]];
    assert PutItems([a[i]]) == PutString(a[i]) + PutItems([]);
  }

  /** The loop of serialise_array, into a buffer of its own. */
  method SerialiseItems(b: Sshbuf, a: seq<Bytes>) returns (ok: bool)
    requires b.data == []
    modifies b
    ensures ok <==> |PutItems(a)| <= SSHBUF_SIZE_MAX
    ensures ok ==> b.data == PutItems(a)
  {
    for i := 0 to |a|
      invariant b.data == PutItems(a[..i]) && |b.data| <= SSHBUF_SIZE_MAX
    {
      ItemsNext(a, i);
      ok := b.PutString(a[i]);
      if !ok {
        return;
      }
    }
    assert a[..|a|] == a;
    ok := true;
  }

  /** serialise_array */
  method SerialiseArray(m: Sshbuf, a: seq<Bytes>) returns (ok: bool)
    modifies m
    ensures Gained(m, PutArray(a), ok)
  {
    if |a| > INT_MAX {
      ItemsSize(a);
      return false;
    }
    var b := new Sshbuf([]);
    ok := SerialiseItems(b, a);
    if !ok {
      return;
    }
    ok := m.Put(PutInt(|a|, 4));
    if !ok {
      return;
    }
    ok := m.PutString(b.data);
    Regroup(old(m.data), PutInt(|a|, 4), PutString(b.data));
  }

  lemma {:induction false} ItemsSize(a: seq<Bytes>)
    ensures 4 * |a| <= |PutItems(a)|
  {
    if a != [] {
      ItemsSize(a[1..]);
    }
  }

  method SerialiseArrays(m: Sshbuf, a: Arrays) returns (ok: bool)
    modifies m
    ensures Gained(m, PutArrays(a), ok)
  {
    ok := SerialiseArray(m, a.env);
    if !ok { return; }
    ok := SerialiseArray(m, a.permitOpen);
    if !ok { return; }
    ok := SerialiseArray(m, a.permitListen);
    ghost var d, e, o, l := old(m.data), PutArray(a.env), PutArray(a.permitOpen), PutArray(a.permitListen);
    Regroup(d, e, o + l);
    Regroup(d + e, o, l);
  }

  /** sshauthopt_serialise; false is SSH_ERR_NO_BUFFER_SPACE */
  method Serialise(o: Options, m: Sshbuf, untrusted: bool) returns (ok: bool)
    modifies m
    ensures Gained(m, Encode(if untrusted then Censored(o) else o), ok)
  {
    var strings := if untrusted then Strings(Some(YES), Some(TRUE), None, None) else o.strings;
    var arrays := if untrusted then Arrays([], [], []) else o.arrays;
    ok := SerialiseFlags(m, o.flags);
    if !ok { return; }
    ok := SerialiseScalars(m, o.scalars);
    if !ok { return; }
    ok := SerialiseStrings(m, strings);
    if !ok { return; }
    ok := SerialiseArrays(m, arrays);
    Chain(old(m.data), PutFlags(o.flags), PutScalars(o.scalars), PutStrings(strings), PutArrays(arrays));
  }

  // ---- reading

  /** deserialise_nullable_string */
  method DeserialiseNullable(m: Sshbuf) returns (r: Got<Option<Bytes>>)
    modifies m
    ensures r == GetNullable(old(m.data)) && (r.Got? ==> m.data == r.rest)
  {
    var flag := m.GetInt(1);
    if flag.None? {
      return Bad(Incomplete);
    }
    var s := m.GetCString();
    match s
    case Bad(e) => r := Bad(e);
    case Got(v, rest) => r := Got(if flag.value != 0 then None else Some(v), rest);
  }

  /** deserialise_array */
  method DeserialiseArray(m: Sshbuf) returns (r: Got<seq<Bytes>>)
    modifies m
    ensures r == GetArray(old(m.data)) && (r.Got? ==> m.data == r.rest)
  {
    var n := m.GetInt(4);
    if n.None? {
      return Bad(Incomplete);
    }
    var inner := m.GetString();
    if inner.Bad? {
      return Bad(inner.e);
    }
    if n.value > INT_MAX {
      return Bad(InvalidFormat);
    }
    var b := new Sshbuf(inner.v);
    var items := DeserialiseItems(b, n.value);
    match items
    case Bad(e) => r := Bad(e);
    case Got(a, _) => r := Got(a, m.data);
  }

  function Prepend(a: seq<Bytes>, g: Got<seq<Bytes>>): Got<seq<Bytes>> {
    match g case Bad(e) => Bad(e) case Got(more, rest) => Got(a + more, rest)
  }

  lemma PrependStep(a: seq<Bytes>, x: Bytes, g: Got<seq<Bytes>>)
    ensures Prepend(a, Prepend([x], g)) == Prepend(a + [x], g)
    ensures Prepend([], g) == g
  {
    if g.Got? {
      assert a + ([x] + g.v) == (a + [x]) + g.v && [] + g.v == g.v;
    }
  }

  /** The loop of deserialise_array. */
  method DeserialiseItems(b: Sshbuf, n: nat) returns (r: Got<seq<Bytes>>)
    modifies b
    ensures r == GetItems(old(b.data), n)
  {
    var a: seq<Bytes> := [];
    PrependStep([], [], GetItems(b.data, n));
    while |a| < n
      invariant |a| <= n && GetItems(old(b.data), n) == Prepend(a, GetItems(b.data, n - |a|))
    {
      ItemsStep(b.data, n - |a|);
      var s := b.GetCString();
      if s.Bad? {
        return Bad(s.e);
      }
      PrependStep(a, s.v, GetItems(b.data, n - |a| - 1));
      a := a + [s.v];
    }
    assert a + [] == a;
    r := Got(a, b.data);
  }

  lemma ItemsStep(b: Bytes, n: nat)
    requires n > 0
    ensures match GetCString(b)
      case Bad(e) => GetItems(b, n) == Bad(e)
      case Got(s, rest) => GetItems(b, n) == Prepend([s], GetItems(rest, n - 1))
  {
  }

  /** sshauthopt_deserialise */
  method Deserialise(m: Sshbuf) returns (r: Got<Options>)
    modifies m
    ensures r == Decode(old(m.data)) && (r.Got? ==> m.data == r.rest)
  {
    var f := DeserialiseFlags(m);
    if f.Bad? {
      return Bad(f.e);
    }
    var s := DeserialiseScalars(m);
    if s.Bad? {
      return Bad(s.e);
    }
    var t := DeserialiseStrings(m);
    if t.Bad? {
      return Bad(t.e);
    }
    var a := DeserialiseArrays(m);
    if a.Bad? {
      return Bad(a.e);
    }
    r := Got(Options(f.v, s.v, t.v, a.v), a.rest);
  }

  /**
   Options written into an empty buffer, with anything written behind them, and read back: the reader gets the options, or
   their censored form, in normal form, which is unchanged exactly if the flags fit a byte and the tunnel number is at
   least -1, and the rest of the buffer is left. Nothing comes through exactly if the buffer is too small.
   */
  method Convey(o: Options, untrusted: bool, suffix: Bytes, m: Sshbuf) returns (r: Option<Options>)
    requires Typed(o) && m.data == []
    modifies m
    ensures var sent := if untrusted then Censored(o) else o;
      && (r.None? <==> |Encode(sent)| + |suffix| > SSHBUF_SIZE_MAX)
      && (r.Some? ==> m.data == suffix && (r.value == sent <==> ByteFlags(o.flags) && o.scalars.tun >= -1))
      && (r.Some? ==> r.value == Normal(sent))
  {
    ghost var sent := if untrusted then Censored(o) else o;
    var ok := Send(o, untrusted, suffix, m, sent);
    if !ok {
      return None;
    }
    Conveyed(o, sent, suffix);
    var got := Deserialise(m);
    r := Some(got.v);
  }

  method Send(o: Options, untrusted: bool, suffix: Bytes, m: Sshbuf, ghost sent: Options) returns (ok: bool)
    requires m.data == [] && sent == if untrusted then Censored(o) else o
    modifies m
    ensures ok <==> |Encode(sent)| + |suffix| <= SSHBUF_SIZE_MAX
    ensures ok ==> m.data == Encode(sent) + suffix
  {
    ok := Serialise(o, m, untrusted);
    if ok {
      assert [] + Encode(sent) == Encode(sent);
      ok := m.Put(suffix);
    }
  }

  lemma Conveyed(o: Options, sent: Options, suffix: Bytes)
    requires Typed(o) && (sent == o || sent == Censored(o)) && |Encode(sent)| <= SSHBUF_SIZE_MAX
    ensures Decode(Encode(sent) + suffix) == Got(Normal(sent), suffix)
    ensures Normal(sent) == sent <==> ByteFlags(o.flags) && o.scalars.tun >= -1
  {
    CensoredTyped(o);
    DecodeEncode(sent, suffix);
    NormalIff(sent);
  }

  lemma CensoredTyped(o: Options)
    requires Typed(o)
    ensures Typed(Censored(o)) && Censored(o).flags == o.flags && Censored(o).scalars == o.scalars
  {
  }

  /** The OPT_FLAG reads, one byte each. */
  method DeserialiseFlags(m: Sshbuf) returns (r: Got<Flags>)
    modifies m
    ensures r == GetFlags(old(m.data)) && (r.Got? ==> m.data == r.rest)
  {
    var v := TakeBytes(m, 9);
    if |v| < 9 {
      return Bad(Incomplete);
    }
    r := Got(Flags(v[0], v[1], v[2], v[3], v[4], v[5], v[6], v[7], v[8]), m.data);
  }

  method TakeBytes(m: Sshbuf, n: nat) returns (v: Bytes)
    modifies m
    ensures if |old(m.data)| < n then |v| < n else v == old(m.data)[..n] && m.data == old(m.data)[n..]
  {
    v := [];
    while |v| < n && m.data != []
      invariant |v| <= n && v + m.data == old(m.data)
      decreases n - |v|
    {
      var b, rest := m.data[0], m.data[1..];
      TakeStep(v, b, m.data);
      m.data := rest;
      v := v + [b];
    }
    Prefix(v, m.data);
  }

  lemma TakeStep(v: Bytes, b: Byte, d: Bytes)
    requires d != [] && d[0] == b
    ensures (v + [b]) + d[1..] == v + d
  {
  }

  method DeserialiseScalars(m: Sshbuf) returns (r: Got<Scalars>)
    modifies m
    ensures r == GetScalars(old(m.data)) && (r.Got? ==> m.data == r.rest)
  {
    var v := m.GetInt(8);
    if v.None? {
      return Bad(Incomplete);
    }
    var f := m.GetInt(1);
    if f.None? {
      return Bad(Incomplete);
    }
    var t := m.GetInt(4);
    if t.None? {
      return Bad(Incomplete);
    }
    r := Got(Scalars(v.value, if f.value != 0 then -1 else Signed(t.value)), m.data);
  }

  method DeserialiseStrings(m: Sshbuf) returns (r: Got<Strings>)
    modifies m
    ensures r == GetStrings(old(m.data)) && (r.Got? ==> m.data == r.rest)
  {
    var p := DeserialiseNullable(m);
    if p.Bad? {
      return Bad(p.e);
    }
    var c := DeserialiseNullable(m);
    if c.Bad? {
      return Bad(c.e);
    }
    var h := DeserialiseNullable(m);
    if h.Bad? {
      return Bad(h.e);
    }
    var k := DeserialiseNullable(m);
    if k.Bad? {
      return Bad(k.e);
    }
    r := Got(Strings(p.v, c.v, h.v, k.v), k.rest);
  }

  method DeserialiseArrays(m: Sshbuf) returns (r: Got<Arrays>)
    modifies m
    ensures r == GetArrays(old(m.data)) && (r.Got? ==> m.data == r.rest)
  {
    var e := DeserialiseArray(m);
    if e.Bad? {
      return Bad(e.e);
    }
    var o := DeserialiseArray(m);
    if o.Bad? {
      return Bad(o.e);
    }
    var l := DeserialiseArray(m);
    if l.Bad? {
      return Bad(l.e);
    }
    r := Got(Arrays(e.v, o.v, l.v), l.rest);
  }
}
