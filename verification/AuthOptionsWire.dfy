/** The serialised options byte by byte, and what of them an untrusted receiver gets to see. */
module AuthOptionsWire {
  import opened Basics
  import opened Wire
  import opened AuthOptions

  /** The fixed part: nine flags, one byte each, the expiry time, and the tunnel device behind a byte that says there is none. */
  predicate FixedPart(b: Bytes, f: Flags, s: Scalars) {
    && |b| >= 22
    && b[..9] == [U8(f.portForwarding), U8(f.agentForwarding), U8(f.x11Forwarding), U8(f.pty), U8(f.userRc), U8(f.restricted),
                  U8(f.certAuthority), U8(f.noRequireUserPresence), U8(f.requireVerify)]
    && PeekInt(b[9..17]) == s.validBefore
    && b[17..18] == (if s.tun == -1 then [1] else [0]) && PeekInt(b[18..22]) == (if s.tun < 0 then 0 else s.tun)
  }

  lemma OneByte(v: nat)
    requires v < 256
    ensures PutInt(v, 1) == [v]
  {
  }

  lemma Laid(f: Bytes, v: Bytes, none: Bytes, tun: Bytes, more: Bytes)
    requires |f| == 9 && |v| == 8 && |none| == 1 && |tun| == 4
    ensures var b := f + (v + (none + tun) + more);
      |b| >= 22 && b[..9] == f && b[9..17] == v && b[17..18] == none && b[18..22] == tun && b[22..] == more
  {
  }

  lemma FixedLayout(o: Options)
    requires Typed(o)
    ensures FixedPart(Encode(o), o.flags, o.scalars)
    ensures Encode(o)[22..] == PutStrings(o.strings) + PutArrays(o.arrays)
  {
    var none, tun := if o.scalars.tun == -1 then 1 else 0, if o.scalars.tun < 0 then 0 else o.scalars.tun;
    var v, n, t := PutInt(o.scalars.validBefore, 8), PutInt(none, 1), PutInt(tun, 4);
    Laid(PutFlags(o.flags), v, n, t, PutStrings(o.strings) + PutArrays(o.arrays));
    Sizes();
    PeekPut(o.scalars.validBefore, 8);
    PeekPut(tun, 4);
    OneByte(none);
  }

  /** After it come four strings or NULLs and three arrays, in this order. */
  lemma VariableLayout(o: Options)
    requires Typed(o)
    ensures var s, a := o.strings, o.arrays;
      |Encode(o)| >= 22 && Encode(o)[22..]
        == PutNullable(s.principals) + PutNullable(s.command) + PutNullable(s.hostCert) + PutNullable(s.hostKeys)
           + PutArray(a.env) + PutArray(a.permitOpen) + PutArray(a.permitListen)
  {
    FixedLayout(o);
    var s, a := o.strings, o.arrays;
    Ungroup(PutNullable(s.principals), PutNullable(s.command), PutNullable(s.hostCert), PutNullable(s.hostKeys),
            PutArray(a.env), PutArray(a.permitOpen), PutArray(a.permitListen));
  }

  lemma Ungroup(a: Bytes, b: Bytes, c: Bytes, d: Bytes, e: Bytes, f: Bytes, g: Bytes)
    ensures (a + (b + (c + d))) + (e + (f + g)) == a + b + c + d + e + f + g
  {
  }

  /** NULL is a one and an empty string, a string a zero, its length and its bytes. */
  lemma NullableLayout(s: Option<Bytes>)
    ensures PutNullable(s) == if s.None? then [1] + PutInt(0, 4) else [0] + PutInt(|s.value|, 4) + s.value
  {
    OneByte(1);
    OneByte(0);
    if s.Some? {
      assert [0] + (PutInt(|s.value|, 4) + s.value) == [0] + PutInt(|s.value|, 4) + s.value;
    } else {
      assert PutInt(0, 4) + [] == PutInt(0, 4);
    }
  }

  /** An array is how many strings there are, the length of the rest, and the strings, each with its length. */
  lemma ArrayLayout(a: seq<Bytes>)
    requires |a| < TWO_TO_32 && |PutItems(a)| < TWO_TO_32
    ensures var b := PutArray(a); |b| >= 8 && PeekInt(b[..4]) == |a| && PeekInt(b[4..8]) == |b| - 8 && b[8..] == PutItems(a)
    ensures a != [] ==> PutItems(a) == PutInt(|a[0]|, 4) + a[0] + PutItems(a[1..])
  {
    Sizes();
    PeekPut(|a|, 4);
    PeekPut(|PutItems(a)|, 4);
    var b, n, l := PutArray(a), PutInt(|a|, 4), PutInt(|PutItems(a)|, 4);
    assert b[..4] == n && b[4..8] == l && b[8..] == PutItems(a);
  }

  // ---- the untrusted receiver

  lemma NullableSize(s: Option<Bytes>)
    ensures |PutNullable(s)| == 5 + if s.Some? then |s.value| else 0
  {
  }

  lemma EmptyArray()
    ensures |PutArray([])| == 8
  {
  }

  lemma CensoredSize(o: Options)
    ensures |Encode(Censored(o))| == 73
  {
    NullableSize(Some([121, 101, 115]));
    NullableSize(Some([116, 114, 117, 101]));
    NullableSize(None);
    EmptyArray();
  }

  lemma CensoredIsTyped(o: Options)
    requires o.scalars.validBefore < TWO_TO_64 && -INT_MAX - 1 <= o.scalars.tun <= INT_MAX
    ensures Typed(Censored(o))
  {
  }

  /**
   Whatever the options are, an untrusted receiver reads the principals "yes", the command "true", no source restrictions
   and empty lists: of the original it learns the flags, the expiry time and the tunnel device, and nothing else.
   */
  lemma UntrustedReads(o: Options, rest: Bytes)
    requires o.scalars.validBefore < TWO_TO_64 && -INT_MAX - 1 <= o.scalars.tun <= INT_MAX
    ensures Decode(Encode(Censored(o)) + rest)
         == Got(Options(NormalFlags(o.flags), Scalars(o.scalars.validBefore, NormalTun(o.scalars.tun)),
                        Strings(Some([121, 101, 115]), Some([116, 114, 117, 101]), None, None), Arrays([], [], [])), rest)
  {
    CensoredIsTyped(o);
    CensoredSize(o);
    DecodeEncode(Censored(o), rest);
  }

  /** So the bytes sent to it are the same for any two options that agree in those. */
  lemma UntrustedCannotTell(o: Options, p: Options)
    requires o.flags == p.flags && o.scalars == p.scalars
    ensures Encode(Censored(o)) == Encode(Censored(p)) && |Encode(Censored(o))| == 73
  {
    CensoredSize(o);
  }
}
