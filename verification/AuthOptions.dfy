/** Authorised-key options on the wire between sshd's processes (auth-options.c). */
module AuthOptions {
  import opened Basics
  import opened Wire

  /** The C int flags, in wire order. */
  datatype Flags = Flags(portForwarding: int, agentForwarding: int, x11Forwarding: int, pty: int, userRc: int,
    restricted: int, certAuthority: int, noRequireUserPresence: int, requireVerify: int)

  datatype Scalars = Scalars(validBefore: nat, tun: int)

  datatype Strings = Strings(principals: Option<Bytes>, command: Option<Bytes>, hostCert: Option<Bytes>, hostKeys: Option<Bytes>)

  datatype Arrays = Arrays(env: seq<Bytes>, permitOpen: seq<Bytes>, permitListen: seq<Bytes>)

  /** struct sshauthopt, its fields grouped as they are sent */
  datatype Options = Options(flags: Flags, scalars: Scalars, strings: Strings, arrays: Arrays)

  predicate CString(s: Option<Bytes>) { s.Some? ==> NulFree(s.value) }

  predicate CStrings(a: seq<Bytes>) { forall i :: 0 <= i < |a| ==> NulFree(a[i]) }

  /** What C's types guarantee: strings end at their NUL, valid_before is a uint64_t and force_tun_device an int. */
  predicate Typed(o: Options) {
    && o.scalars.validBefore < TWO_TO_64 && -INT_MAX - 1 <= o.scalars.tun <= INT_MAX
    && CString(o.strings.principals) && CString(o.strings.command) && CString(o.strings.hostCert) && CString(o.strings.hostKeys)
    && CStrings(o.arrays.env) && CStrings(o.arrays.permitOpen) && CStrings(o.arrays.permitListen)
  }

  // ---- serialising

  function U8(x: int): Byte { x % 256 }

  function PutFlags(f: Flags): (b: Bytes)
    ensures |b| == 9
  {
    [U8(f.portForwarding), U8(f.agentForwarding), U8(f.x11Forwarding), U8(f.pty), U8(f.userRc), U8(f.restricted),
     U8(f.certAuthority), U8(f.noRequireUserPresence), U8(f.requireVerify)]
  }

  function PutScalars(s: Scalars): Bytes {
    PutInt(s.validBefore, 8) + (PutInt(if s.tun == -1 then 1 else 0, 1) + PutInt(if s.tun < 0 then 0 else s.tun, 4))
  }

  /** serialise_nullable_string */
  function PutNullable(s: Option<Bytes>): Bytes {
    PutInt(if s.None? then 1 else 0, 1) + PutString(if s.None? then [] else s.value)
  }

  function PutStrings(s: Strings): Bytes {
    PutNullable(s.principals) + (PutNullable(s.command) + (PutNullable(s.hostCert) + PutNullable(s.hostKeys)))
  }

  function PutItems(a: seq<Bytes>): Bytes {
    if a == [] then [] else PutString(a[0]) + PutItems(a[1..])
  }

  /** serialise_array */
  function PutArray(a: seq<Bytes>): Bytes { PutInt(|a|, 4) + PutString(PutItems(a)) }

  function PutArrays(a: Arrays): Bytes { PutArray(a.env) + (PutArray(a.permitOpen) + PutArray(a.permitListen)) }

  function Encode(o: Options): Bytes {
    PutFlags(o.flags) + (PutScalars(o.scalars) + (PutStrings(o.strings) + PutArrays(o.arrays)))
  }

  const YES: Bytes := [121, 101, 115]
  const TRUE: Bytes := [116, 114, 117, 101]

  /** What is sent to an untrusted receiver. */
  function Censored(o: Options): Options {
    Options(o.flags, o.scalars, Strings(Some(YES), Some(TRUE), None, None), Arrays([], [], []))
  }

  // ---- deserialising

  function GetFlags(b: Bytes): Got<Flags> {
    if |b| < 9 then Bad(Incomplete)
    else Got(Flags(b[0], b[1], b[2], b[3], b[4], b[5], b[6], b[7], b[8]), b[9..])
  }

  /** A u_int converted to int. */
  function Signed(x: nat): int { if x > INT_MAX then x - TWO_TO_32 else x }

  function GetScalars(b: Bytes): Got<Scalars> {
    match GetInt(b, 8)
    case Bad(e) => Bad(e)
    case Got(v, b1) =>
      match GetInt(b1, 1)
      case Bad(e) => Bad(e)
      case Got(f, b2) =>
        match GetInt(b2, 4)
        case Bad(e) => Bad(e)
        case Got(t, rest) => Got(Scalars(v, if f != 0 then -1 else Signed(t)), rest)
  }

  /** deserialise_nullable_string */
  function GetNullable(b: Bytes): Got<Option<Bytes>> {
    match GetInt(b, 1)
    case Bad(e) => Bad(e)
    case Got(f, b1) =>
      match GetCString(b1)
      case Bad(e) => Bad(e)
      case Got(s, rest) => Got(if f != 0 then None else Some(s), rest)
  }

  function GetStrings(b: Bytes): Got<Strings> {
    match GetNullable(b)
    case Bad(e) => Bad(e)
    case Got(p, b1) =>
      match GetNullable(b1)
      case Bad(e) => Bad(e)
      case Got(c, b2) =>
        match GetNullable(b2)
        case Bad(e) => Bad(e)
        case Got(h, b3) =>
          match GetNullable(b3)
          case Bad(e) => Bad(e)
          case Got(k, rest) => Got(Strings(p, c, h, k), rest)
  }

  function GetItems(b: Bytes, n: nat): Got<seq<Bytes>> {
    if n == 0 then Got([], b)
    else match GetCString(b)
      case Bad(e) => Bad(e)
      case Got(s, b1) =>
        match GetItems(b1, n - 1)
        case Bad(e) => Bad(e)
        case Got(a, rest) => Got([s] + a, rest)
  }

  /** deserialise_array */
  function GetArray(b: Bytes): Got<seq<Bytes>> {
    match GetInt(b, 4)
    case Bad(e) => Bad(e)
    case Got(n, b1) =>
      match GetString(b1)
      case Bad(e) => Bad(e)
      case Got(inner, rest) =>
        if n > INT_MAX then Bad(InvalidFormat)
        else match GetItems(inner, n)
          case Bad(e) => Bad(e)
          case Got(a, _) => Got(a, rest)
  }

  function GetArrays(b: Bytes): Got<Arrays> {
    match GetArray(b)
    case Bad(e) => Bad(e)
    case Got(env, b1) =>
      match GetArray(b1)
      case Bad(e) => Bad(e)
      case Got(open, b2) =>
        match GetArray(b2)
        case Bad(e) => Bad(e)
        case Got(listen, rest) => Got(Arrays(env, open, listen), rest)
  }

  function Decode(b: Bytes): Got<Options> {
    match GetFlags(b)
    case Bad(e) => Bad(e)
    case Got(f, b1) =>
      match GetScalars(b1)
      case Bad(e) => Bad(e)
      case Got(s, b2) =>
        match GetStrings(b2)
        case Bad(e) => Bad(e)
        case Got(t, b3) =>
          match GetArrays(b3)
          case Bad(e) => Bad(e)
          case Got(a, rest) => Got(Options(f, s, t, a), rest)
  }

  // ---- field by field

  function NormalFlags(f: Flags): Flags {
    Flags(U8(f.portForwarding), U8(f.agentForwarding), U8(f.x11Forwarding), U8(f.pty), U8(f.userRc), U8(f.restricted),
          U8(f.certAuthority), U8(f.noRequireUserPresence), U8(f.requireVerify))
  }

  function NormalTun(t: int): int { if t < -1 then 0 else t }

  /** What the receiver makes of the options: flags modulo 256, tunnel numbers below -1 as 0. */
  function Normal(o: Options): Options {
    o.(flags := NormalFlags(o.flags), scalars := Scalars(o.scalars.validBefore, NormalTun(o.scalars.tun)))
  }

  lemma Regroup(a: Bytes, b: Bytes, c: Bytes)
    ensures (a + b) + c == a + (b + c)
  {
  }

  lemma FlagsTrip(f: Flags, rest: Bytes)
    ensures GetFlags(PutFlags(f) + rest) == Got(NormalFlags(f), rest)
  {
    Prefix(PutFlags(f), rest);
  }

  lemma ScalarsTrip(s: Scalars, rest: Bytes)
    requires s.validBefore < TWO_TO_64 && s.tun <= INT_MAX
    ensures GetScalars(PutScalars(s) + rest) == Got(Scalars(s.validBefore, NormalTun(s.tun)), rest)
  {
    var v, f, t := PutInt(s.validBefore, 8), PutInt(if s.tun == -1 then 1 else 0, 1), PutInt(if s.tun < 0 then 0 else s.tun, 4);
    Sizes();
    Regroup(v, f + t, rest);
    Regroup(f, t, rest);
    GetPutInt(s.validBefore, 8, f + (t + rest));
    GetPutInt(if s.tun == -1 then 1 else 0, 1, t + rest);
    GetPutInt(if s.tun < 0 then 0 else s.tun, 4, rest);
  }

  lemma NullableTrip(s: Option<Bytes>, rest: Bytes)
    requires CString(s) && |PutNullable(s)| <= SSHBUF_SIZE_MAX
    ensures GetNullable(PutNullable(s) + rest) == Got(s, rest)
  {
    var f, b := PutInt(if s.None? then 1 else 0, 1), if s.None? then [] else s.value;
    Sizes();
    Regroup(f, PutString(b), rest);
    GetPutInt(if s.None? then 1 else 0, 1, PutString(b) + rest);
    GetPutCString(b, rest);
  }

  lemma StringsTrip(s: Strings, rest: Bytes)
    requires CString(s.principals) && CString(s.command) && CString(s.hostCert) && CString(s.hostKeys)
    requires |PutStrings(s)| <= SSHBUF_SIZE_MAX
    ensures GetStrings(PutStrings(s) + rest) == Got(s, rest)
  {
    var p, c, h, k := PutNullable(s.principals), PutNullable(s.command), PutNullable(s.hostCert), PutNullable(s.hostKeys);
    Regroup(p, c + (h + k), rest);
    Regroup(c, h + k, rest);
    Regroup(h, k, rest);
    NullableTrip(s.principals, c + (h + (k + rest)));
    NullableTrip(s.command, h + (k + rest));
    NullableTrip(s.hostCert, k + rest);
    NullableTrip(s.hostKeys, rest);
  }

  lemma {:induction false} ItemsTrip(a: seq<Bytes>, rest: Bytes)
    requires CStrings(a) && |PutItems(a)| <= SSHBUF_SIZE_MAX
    ensures GetItems(PutItems(a) + rest, |a|) == Got(a, rest) && 4 * |a| <= |PutItems(a)|
  {
    if a != [] {
      Regroup(PutString(a[0]), PutItems(a[1..]), rest);
      GetPutCString(a[0], PutItems(a[1..]) + rest);
      ItemsTrip(a[1..], rest);
      assert a == [a[0]] + a[1..];
    }
  }

  lemma ArrayTrip(a: seq<Bytes>, rest: Bytes)
    requires CStrings(a) && |PutArray(a)| <= SSHBUF_SIZE_MAX
    ensures GetArray(PutArray(a) + rest) == Got(a, rest)
  {
    var n, items := PutInt(|a|, 4), PutItems(a);
    Sizes();
    ItemsTrip(a, []);
    assert items + [] == items;
    Regroup(n, PutString(items), rest);
    GetPutInt(|a|, 4, PutString(items) + rest);
    GetPutString(items, rest);
  }

  lemma ArraysTrip(a: Arrays, rest: Bytes)
    requires CStrings(a.env) && CStrings(a.permitOpen) && CStrings(a.permitListen) && |PutArrays(a)| <= SSHBUF_SIZE_MAX
    ensures GetArrays(PutArrays(a) + rest) == Got(a, rest)
  {
    var e, o, l := PutArray(a.env), PutArray(a.permitOpen), PutArray(a.permitListen);
    Regroup(e, o + l, rest);
    Regroup(o, l, rest);
    ArrayTrip(a.env, o + (l + rest));
    ArrayTrip(a.permitOpen, l + rest);
    ArrayTrip(a.permitListen, rest);
  }

  // ---- the whole record

  /** Reading back what was written gives the normal form and leaves exactly what followed. */
  lemma DecodeEncode(o: Options, rest: Bytes)
    requires Typed(o) && |Encode(o)| <= SSHBUF_SIZE_MAX
    ensures Decode(Encode(o) + rest) == Got(Normal(o), rest)
  {
    var f, s, t, a := PutFlags(o.flags), PutScalars(o.scalars), PutStrings(o.strings), PutArrays(o.arrays);
    Regroup(f, s + (t + a), rest);
    Regroup(s, t + a, rest);
    Regroup(t, a, rest);
    FlagsTrip(o.flags, s + (t + (a + rest)));
    ScalarsTrip(o.scalars, t + (a + rest));
    StringsTrip(o.strings, a + rest);
    ArraysTrip(o.arrays, rest);
  }

  predicate IsU8(x: int) { 0 <= x < 256 }

  predicate ByteFlags(f: Flags) {
    && IsU8(f.portForwarding) && IsU8(f.agentForwarding) && IsU8(f.x11Forwarding) && IsU8(f.pty) && IsU8(f.userRc)
    && IsU8(f.restricted) && IsU8(f.certAuthority) && IsU8(f.noRequireUserPresence) && IsU8(f.requireVerify)
  }

  lemma NormalIff(o: Options)
    ensures Normal(o) == o <==> ByteFlags(o.flags) && o.scalars.tun >= -1
  {
    var f, g := o.flags, NormalFlags(o.flags);
    assert g == f <==> ByteFlags(f);
  }

  /** The options survive the trip exactly when the flags fit a byte and the tunnel number is not below -1. */
  lemma RoundTripIff(o: Options, rest: Bytes)
    requires Typed(o) && |Encode(o)| <= SSHBUF_SIZE_MAX
    ensures Decode(Encode(o) + rest) == Got(o, rest) <==> ByteFlags(o.flags) && o.scalars.tun >= -1
  {
    DecodeEncode(o, rest);
    NormalIff(o);
  }

  // ---- what can be read

  lemma {:induction false} PeekSize(b: Bytes)
    ensures PeekInt(b) < Pow256(|b|)
  {
    if b != [] {
      PeekSize(b[..|b| - 1]);
    }
  }

  lemma {:induction false} ItemsAreCStrings(b: Bytes, n: nat)
    requires GetItems(b, n).Got?
    ensures CStrings(GetItems(b, n).v)
  {
    if n > 0 {
      ItemsAreCStrings(GetCString(b).rest, n - 1);
    }
  }

  lemma ArrayIsCStrings(b: Bytes)
    requires GetArray(b).Got?
    ensures CStrings(GetArray(b).v)
  {
    var b1 := GetInt(b, 4).rest;
    ItemsAreCStrings(GetString(b1).v, GetInt(b, 4).v);
  }

  lemma ArraysAreCStrings(b: Bytes)
    requires GetArrays(b).Got?
    ensures var a := GetArrays(b).v; CStrings(a.env) && CStrings(a.permitOpen) && CStrings(a.permitListen)
  {
    var b1 := GetArray(b).rest;
    ArrayIsCStrings(b);
    ArrayIsCStrings(b1);
    ArrayIsCStrings(GetArray(b1).rest);
  }

  lemma NullableIsCString(b: Bytes)
    requires GetNullable(b).Got?
    ensures CString(GetNullable(b).v)
  {
  }

  lemma StringsAreCStrings(b: Bytes)
    requires GetStrings(b).Got?
    ensures var s := GetStrings(b).v;
      CString(s.principals) && CString(s.command) && CString(s.hostCert) && CString(s.hostKeys)
  {
    var b1 := GetNullable(b).rest;
    var b2 := GetNullable(b1).rest;
    NullableIsCString(b);
    NullableIsCString(b1);
    NullableIsCString(b2);
    NullableIsCString(GetNullable(b2).rest);
  }

  lemma ScalarsAreTyped(b: Bytes)
    requires GetScalars(b).Got?
    ensures var s := GetScalars(b).v; s.validBefore < TWO_TO_64 && -INT_MAX - 1 <= s.tun <= INT_MAX
  {
    Sizes();
    PeekSize(b[..8]);
    var b1 := GetInt(b, 8).rest;
    PeekSize(GetInt(b1, 1).rest[..4]);
  }

  lemma FlagsAreBytes(b: Bytes)
    requires GetFlags(b).Got?
    ensures ByteFlags(GetFlags(b).v)
  {
  }

  lemma DecodedParts(b: Bytes, o: Options, rest: Bytes)
    requires Decode(b) == Got(o, rest)
    ensures ByteFlags(o.flags) && Typed(o)
  {
    var b1 := GetFlags(b).rest;
    var b2 := GetScalars(b1).rest;
    var b3 := GetStrings(b2).rest;
    FlagsAreBytes(b);
    ScalarsAreTyped(b1);
    StringsAreCStrings(b2);
    ArraysAreCStrings(b3);
  }

  /** Options that were read, from any bytes at all, are read the same again once relayed, but for a tunnel below -1. */
  lemma RelayIff(b: Bytes, o: Options, rest: Bytes, more: Bytes)
    requires Decode(b) == Got(o, rest) && |Encode(o)| <= SSHBUF_SIZE_MAX
    ensures Decode(Encode(o) + more) == Got(o, more) <==> o.scalars.tun >= -1
  {
    DecodedParts(b, o, rest);
    RoundTripIff(o, more);
  }

  // ---- options that do not survive

  const Plain := Flags(0, 0, 0, 0, 0, 0, 0, 0, 0)
  const NoStrings := Strings(None, None, None, None)
  const NoArrays := Arrays([], [], [])

  lemma PlainSize(f: Flags, s: Scalars)
    ensures |Encode(Options(f, s, NoStrings, NoArrays))| <= SSHBUF_SIZE_MAX
    ensures CStrings([])
  {
    assert |PutString([])| == 4 && |PutNullable(None)| == 5 && |PutStrings(NoStrings)| == 20;
    assert PutItems([]) == [] && |PutArray([])| == 8 && |PutArrays(NoArrays)| == 24;
  }

  /** A tunnel number below -1 comes back as 0, and a flag of 256 as 0. */
  lemma LostOnTheWay(rest: Bytes)
    ensures var o := Options(Plain, Scalars(0, -2), NoStrings, NoArrays);
      Decode(Encode(o) + rest) == Got(o.(scalars := Scalars(0, 0)), rest)
    ensures var o := Options(Plain.(pty := 256), Scalars(0, 0), NoStrings, NoArrays);
      Decode(Encode(o) + rest) == Got(o.(flags := Plain), rest)
  {
    PlainSize(Plain, Scalars(0, -2));
    PlainSize(Plain.(pty := 256), Scalars(0, 0));
    DecodeEncode(Options(Plain, Scalars(0, -2), NoStrings, NoArrays), rest);
    DecodeEncode(Options(Plain.(pty := 256), Scalars(0, 0), NoStrings, NoArrays), rest);
  }

  /** The scalars with the tunnel number sent as it is. */
  function WiredScalars(v: nat, t: U32): Bytes { PutInt(v, 8) + (PutInt(0, 1) + PutInt(t, 4)) }

  lemma WireTunnel(v: nat, t: U32, rest: Bytes)
    requires v < TWO_TO_64
    ensures GetScalars(WiredScalars(v, t) + rest) == Got(Scalars(v, Signed(t)), rest)
  {
    var b, f, n := PutInt(v, 8), PutInt(0, 1), PutInt(t, 4);
    Sizes();
    Regroup(b, f + n, rest);
    Regroup(f, n, rest);
    GetPutInt(v, 8, f + (n + rest));
    GetPutInt(0, 1, n + rest);
    GetPutInt(t, 4, rest);
  }

  function Wired(o: Options, t: U32): Bytes {
    PutFlags(o.flags) + (WiredScalars(o.scalars.validBefore, t) + (PutStrings(o.strings) + PutArrays(o.arrays)))
  }

  lemma DecodeParts(b: Bytes, b1: Bytes, b2: Bytes, b3: Bytes, o: Options)
    requires GetFlags(b) == Got(o.flags, b1) && GetScalars(b1) == Got(o.scalars, b2)
    requires GetStrings(b2) == Got(o.strings, b3) && GetArrays(b3) == Got(o.arrays, [])
    ensures Decode(b) == Got(o, [])
  {
  }

  lemma SameFlags(f: Flags)
    requires ByteFlags(f)
    ensures NormalFlags(f) == f
  {
  }

  lemma PartSizes(o: Options)
    ensures |PutStrings(o.strings)| <= |Encode(o)| && |PutArrays(o.arrays)| <= |Encode(o)|
  {
  }

  lemma WiredTail(o: Options)
    requires Typed(o) && |Encode(o)| <= SSHBUF_SIZE_MAX
    ensures GetStrings(PutStrings(o.strings) + PutArrays(o.arrays)) == Got(o.strings, PutArrays(o.arrays))
    ensures GetArrays(PutArrays(o.arrays)) == Got(o.arrays, [])
  {
    PartSizes(o);
    StringsTrip(o.strings, PutArrays(o.arrays));
    assert PutArrays(o.arrays) + [] == PutArrays(o.arrays);
    ArraysTrip(o.arrays, []);
  }

  lemma WiredDecodes(o: Options, t: U32)
    requires Typed(o) && |Encode(o)| <= SSHBUF_SIZE_MAX && o.scalars.tun == Signed(t) && ByteFlags(o.flags)
    ensures Decode(Wired(o, t)) == Got(o, [])
  {
    var v, b3 := o.scalars.validBefore, PutArrays(o.arrays);
    var b2 := PutStrings(o.strings) + b3;
    var b1 := WiredScalars(v, t) + b2;
    SameFlags(o.flags);
    FlagsTrip(o.flags, b1);
    WireTunnel(v, t, b2);
    WiredTail(o);
    DecodeParts(PutFlags(o.flags) + b1, b1, b2, b3, o);
  }

  /** A tunnel number below -1 can be read from the wire, and what was read is then not what is read once relayed. */
  lemma TunnelNotRelayed(o: Options, t: U32, more: Bytes)
    requires Typed(o) && |Encode(o)| <= SSHBUF_SIZE_MAX && o.scalars.tun == Signed(t) < -1 && ByteFlags(o.flags)
    ensures Decode(Wired(o, t)) == Got(o, [])
    ensures Decode(Encode(o) + more) == Got(o.(scalars := Scalars(o.scalars.validBefore, 0)), more)
  {
    WiredDecodes(o, t);
    DecodeEncode(o, more);
    SameFlags(o.flags);
  }

  lemma SomeTunnelNotRelayed(more: Bytes)
    ensures var o := Options(Plain, Scalars(0, -2), NoStrings, NoArrays);
      Decode(Wired(o, 0xffff_fffe)) == Got(o, []) && Decode(Encode(o) + more) != Got(o, more)
  {
    var o := Options(Plain, Scalars(0, -2), NoStrings, NoArrays);
    PlainSize(Plain, Scalars(0, -2));
    TunnelNotRelayed(o, 0xffff_fffe, more);
  }
}
