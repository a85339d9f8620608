/**
 The incremental SOCKS4, SOCKS4A and SOCKS5 decoder of dynamic forwarding (channels.c; sections 3 to 6 of
 RFC 1928), and what cutting its input into chunks can change.
 */
module Socks {
  import opened Basics

  /** A destination as a dotted quad, an IPv6 address or a name. */
  datatype Host = Quad(addr: Bytes) | V6(addr: Bytes) | Name(name: Bytes)

  /** Rejected is chan_mark_dead, Crashed the fatal "internal error" of channel_decode_socks5. */
  datatype Status = Dynamic | Opening | Rejected | Crashed

  datatype State = State(status: Status, input: Bytes, output: Bytes, authDone: bool, path: Option<Host>, port: nat)

  const Start := State(Dynamic, [], [], false, None, 0)

  // ---- parsing a prefix of the input

  /** Short: more input is needed. Good: `rest` is what follows the parsed part. */
  datatype Parse<+T> = Short | Bad | Fatal | Good(value: T, rest: Bytes)

  const MAX_STRING := 1024

  function NulIndex(b: Bytes): (i: nat)
    ensures i <= |b| && 0 !in b[..i] && (i < |b| ==> b[i] == 0)
  {
    if b == [] || b[0] == 0 then 0 else
      var i := 1 + NulIndex(b[1..]);
      assert b[..i] == [b[0]] + b[1..][..i - 1];
      i
  }

  /** sshbuf_get_nulterminated_string */
  function GetString(b: Bytes): Parse<Bytes> {
    var i := NulIndex(b);
    if i == |b| then if i < MAX_STRING then Short else Bad
    else if i > MAX_STRING then Bad
    else Good(b[..i], b[i + 1..])
  }

  function U16(b: Bytes, i: nat): nat
    requires i + 2 <= |b|
  {
    var hi: nat, lo: nat := b[i], b[i + 1];
    hi * 256 + lo
  }

  datatype Request4 = Request4(cmd: Byte, host: Host, port: nat)

  predicate Is4A(b: Bytes)
    requires |b| >= 8
  {
    b[4] == b[5] == b[6] == 0 && b[7] != 0
  }

  /** channel_decode_socks4, up to the handling of the request */
  function Parse4(b: Bytes): Parse<Request4> {
    if |b| < 9 then Short
    else match GetString(b[8..])
      case Good(user, rest) =>
        if Is4A(b) then
          match GetString(rest)
          case Good(name, rest') => Good(Request4(b[1], Name(name), U16(b, 2)), rest')
          case Short => Short
          case _ => Bad
        else Good(Request4(b[1], Quad(b[4..8]), U16(b, 2)), rest)
      case Short => Short
      case _ => Bad
  }

  /** channel_socks5_check_auth */
  function ParseAuth(b: Bytes): Parse<()> {
    if |b| < 2 then Short
    else
      var end: nat := 2 + b[1] as int;
      if |b| < end then Short else if 0 in b[2..end] then Good((), b[end..]) else Bad
  }

  datatype Request5 = Request5(host: Host, port: nat)

  /** A C string ends at its first NUL. */
  function CString(b: Bytes): Bytes { b[..NulIndex(b)] }

  function ParseAddress(b: Bytes, kind: Byte, off: nat, len: nat): Parse<Request5> {
    if |b| < off + len + 2 then Short
    else
      var addr := b[off..off + len];
      var host := if kind == 1 then Quad(addr) else if kind == 4 then V6(addr) else Name(CString(addr));
      Good(Request5(host, U16(b, off + len)), b[off + len + 2..])
  }

  /** The request part of channel_decode_socks5 */
  function Parse5(b: Bytes): Parse<Request5> {
    if |b| < 1 then Short
    else if b[0] != 5 then Fatal
    else if |b| < 4 then Short
    else if b[1] != 1 || b[2] != 0 then Bad
    else if b[3] == 1 then ParseAddress(b, 1, 4, 4)
    else if b[3] == 4 then ParseAddress(b, 4, 4, 16)
    else if b[3] == 3 then if |b| < 5 then Short else ParseAddress(b, 3, 5, b[4])
    else Bad
  }

  // ---- the decoder

  const Reply4: Bytes := [0, 90, 0, 0, 0, 0, 0, 0]
  const ReplyAuth: Bytes := [5, 0]

  function Reply5(port: nat): Bytes { [5, 0, 0, 1, 0, 0, 0, 0, (port / 256) % 256, port % 256] }

  function Decode4(s: State): State {
    match Parse4(s.input)
    case Short => s
    case Good(r, rest) =>
      if r.cmd != 1 then s.(status := Rejected, input := rest)
      else s.(status := Opening, input := rest, output := s.output + Reply4, path := Some(r.host), port := r.port)
    case _ => s.(status := Rejected)
  }

  function DecodeRequest5(s: State): State {
    match Parse5(s.input)
    case Short => s
    case Good(r, rest) =>
      s.(status := Opening, input := rest, output := s.output + Reply5(r.port), path := Some(r.host), port := r.port)
    case Bad => s.(status := Rejected)
    case Fatal => s.(status := Crashed)
  }

  function Decode5(s: State): State {
    if s.authDone then DecodeRequest5(s)
    else match ParseAuth(s.input)
      case Short => s
      case Good(_, rest) => DecodeRequest5(s.(input := rest, output := s.output + ReplyAuth, authDone := true))
      case _ => s.(status := Rejected)
  }

  /** channel_pre_dynamic */
  function PreDynamic(s: State): State {
    if |s.input| < 3 then s
    else if s.input[0] == 4 then Decode4(s)
    else if s.input[0] == 5 then Decode5(s)
    else s.(status := Rejected)
  }

  /** Data arriving: the decoder runs while the channel is still dynamic. */
  function Feed(s: State, chunk: Bytes): State {
    var t := s.(input := s.input + chunk);
    if s.status == Dynamic then PreDynamic(t) else t
  }

  function FeedAll(s: State, chunks: seq<Bytes>): State {
    if chunks == [] then s else Feed(FeedAll(s, chunks[..|chunks| - 1]), chunks[|chunks| - 1])
  }

  function Flatten(chunks: seq<Bytes>): Bytes {
    if chunks == [] then [] else Flatten(chunks[..|chunks| - 1]) + chunks[|chunks| - 1]
  }

  // ---- more input after a prefix

  /** A string that ends exactly at the limit: with its NUL it is accepted, without it is refused. */
  predicate AtLimit(b: Bytes) { NulIndex(b) == MAX_STRING < |b| }

  lemma {:induction false} NulIndexMore(b: Bytes, c: Bytes)
    ensures NulIndex(b + c) == if NulIndex(b) < |b| then NulIndex(b) else |b| + NulIndex(c)
  {
    if b == [] {
      assert b + c == c;
    } else {
      assert (b + c)[1..] == b[1..] + c;
      NulIndexMore(b[1..], c);
    }
  }

  /** `q` is what `p` becomes when `c` follows: a verdict stands, with `c` added to the rest. */
  predicate Continues<T(==)>(p: Parse<T>, q: Parse<T>, c: Bytes) {
    match p
    case Short => true
    case Bad => q == Bad
    case Fatal => q == Fatal
    case Good(v, rest) => q == Good(v, rest + c)
  }

  lemma StringContinues(b: Bytes, c: Bytes)
    requires !AtLimit(b + c)
    ensures Continues(GetString(b), GetString(b + c), c)
  {
    NulIndexMore(b, c);
    var i := NulIndex(b);
    if i < |b| {
      assert (b + c)[..i] == b[..i] && (b + c)[i + 1..] == b[i + 1..] + c;
    }
  }

  predicate Sensitive4(w: Bytes) {
    && |w| >= 9 && w[0] == 4
    && (AtLimit(w[8..]) || (Is4A(w) && GetString(w[8..]).Good? && AtLimit(GetString(w[8..]).rest)))
  }

  predicate Sensitive5(w: Bytes) {
    |w| >= 3 && w[0] == 5 && ParseAuth(w).Good? && ParseAuth(w).rest != [] && ParseAuth(w).rest[0] != 5
  }

  /** Inputs whose decoding may depend on where they are cut. */
  predicate Sensitive(w: Bytes) { Sensitive4(w) || Sensitive5(w) }

  /** Parse4 from the user name on. */
  function Tail4(t: Bytes, cmd: Byte, quad: Bytes, port: nat, named: bool): Parse<Request4> {
    match GetString(t)
    case Good(user, rest) =>
      if named then
        match GetString(rest)
        case Good(name, rest') => Good(Request4(cmd, Name(name), port), rest')
        case Short => Short
        case _ => Bad
      else Good(Request4(cmd, Quad(quad), port), rest)
    case Short => Short
    case _ => Bad
  }

  lemma ParseIsTail(b: Bytes)
    requires |b| >= 9
    ensures Parse4(b) == Tail4(b[8..], b[1], b[4..8], U16(b, 2), Is4A(b))
  {
  }

  lemma SameSlices(b: Bytes, c: Bytes)
    requires |b| >= 9
    ensures (b + c)[8..] == b[8..] + c && (b + c)[4..8] == b[4..8]
    ensures (b + c)[1] == b[1] && U16(b + c, 2) == U16(b, 2) && Is4A(b + c) == Is4A(b)
  {
  }

  lemma SameHeader(b: Bytes, c: Bytes)
    requires |b| >= 9
    ensures (b + c)[8..] == b[8..] + c && Is4A(b + c) == Is4A(b)
    ensures Parse4(b) == Tail4(b[8..], b[1], b[4..8], U16(b, 2), Is4A(b))
    ensures Parse4(b + c) == Tail4(b[8..] + c, b[1], b[4..8], U16(b, 2), Is4A(b))
  {
    SameSlices(b, c);
    ParseIsTail(b);
    ParseIsTail(b + c);
  }

  lemma ContinuesTail(t: Bytes, c: Bytes, cmd: Byte, quad: Bytes, port: nat, named: bool)
    requires !AtLimit(t + c) && (named && GetString(t + c).Good? ==> !AtLimit(GetString(t + c).rest))
    ensures Continues(Tail4(t, cmd, quad, port, named), Tail4(t + c, cmd, quad, port, named), c)
  {
    StringContinues(t, c);
    var u := GetString(t);
    if u.Good? && named {
      StringContinues(u.rest, c);
    }
  }

  lemma Continues4(b: Bytes, c: Bytes)
    requires |b| >= 3 && b[0] == 4 && !Sensitive4(b + c)
    ensures Continues(Parse4(b), Parse4(b + c), c)
  {
    if |b| >= 9 {
      SameHeader(b, c);
      ContinuesTail(b[8..], c, b[1], b[4..8], U16(b, 2), Is4A(b));
    }
  }

  lemma ContinuesAuth(b: Bytes, c: Bytes)
    ensures Continues(ParseAuth(b), ParseAuth(b + c), c)
  {
    if |b| >= 2 && |b| >= 2 + b[1] as int {
      var end: nat := 2 + b[1] as int;
      assert (b + c)[2..end] == b[2..end] && (b + c)[end..] == b[end..] + c;
    }
  }

  lemma ContinuesAddress(b: Bytes, c: Bytes, kind: Byte, off: nat, len: nat)
    ensures Continues(ParseAddress(b, kind, off, len), ParseAddress(b + c, kind, off, len), c)
  {
    if |b| >= off + len + 2 {
      assert (b + c)[off..off + len] == b[off..off + len] && (b + c)[off + len + 2..] == b[off + len + 2..] + c;
    }
  }

  lemma Continues5(b: Bytes, c: Bytes)
    ensures Continues(Parse5(b), Parse5(b + c), c)
  {
    if |b| >= 4 {
      ContinuesAddress(b, c, 1, 4, 4);
      ContinuesAddress(b, c, 4, 4, 16);
      if |b| >= 5 {
        ContinuesAddress(b, c, 3, 5, b[4]);
      }
    }
  }

  // ---- the decoder resumes

  function Given(w: Bytes): State { PreDynamic(Start.(input := w)) }

  function Then(s: State, c: Bytes): State { s.(input := s.input + c) }

  lemma Resume4(b: Bytes, c: Bytes)
    requires |b| >= 3 && b[0] == 4 && !Sensitive4(b + c)
    ensures Feed(Given(b), c) == Given(b + c)
  {
    Continues4(b, c);
  }

  lemma ResumeRequest(s: State, c: Bytes)
    requires s.status == Dynamic && s.authDone
    ensures var t := DecodeRequest5(s);
      DecodeRequest5(Then(s, c)) == if t.status == Dynamic then DecodeRequest5(Then(t, c)) else Then(t, c)
  {
    Continues5(s.input, c);
  }

  /** Fewer than three bytes of a request, or a first byte other than 5, cannot be told from too few. */
  lemma RequestNeedsThree(s: State)
    requires s.status == Dynamic && s.authDone && (s.input != [] ==> s.input[0] == 5)
    ensures PreDynamic(s) == DecodeRequest5(s)
  {
  }

  lemma Resume5(b: Bytes, c: Bytes)
    requires |b| >= 3 && b[0] == 5 && !Sensitive5(b + c)
    ensures Feed(Given(b), c) == Given(b + c)
  {
    ContinuesAuth(b, c);
    var p := ParseAuth(b);
    if p.Good? {
      var s := Start.(input := p.rest, output := [] + ReplyAuth, authDone := true);
      ResumeRequest(s, c);
      if DecodeRequest5(s).status == Dynamic {
        RequestNeedsThree(Then(s, c));
      }
    }
  }

  lemma Resume(b: Bytes, c: Bytes)
    requires !Sensitive(b + c)
    ensures Feed(Given(b), c) == Given(b + c)
  {
    if |b| >= 3 {
      if b[0] == 4 {
        Resume4(b, c);
      } else if b[0] == 5 {
        Resume5(b, c);
      }
    }
  }

  // ---- any way of cutting the input

  lemma PrefixInsensitive(b: Bytes, c: Bytes)
    requires !Sensitive(b + c)
    ensures !Sensitive(b)
  {
    if Sensitive4(b) {
      assert (b + c)[8..] == b[8..] + c;
      NulIndexMore(b[8..], c);
      var u := GetString(b[8..]);
      if !AtLimit(b[8..]) {
        NulIndexMore(u.rest, c);
        StringContinues(b[8..], c);
      }
    } else if Sensitive5(b) {
      ContinuesAuth(b, c);
    }
  }

  lemma {:induction false} CutsAgree(chunks: seq<Bytes>)
    requires !Sensitive(Flatten(chunks))
    ensures FeedAll(Start, chunks) == Given(Flatten(chunks))
  {
    if chunks != [] {
      var most, last := chunks[..|chunks| - 1], chunks[|chunks| - 1];
      PrefixInsensitive(Flatten(most), last);
      CutsAgree(most);
      Resume(Flatten(most), last);
    }
  }

  lemma GoodString(b: Bytes, c: Bytes)
    requires GetString(b).Good?
    ensures GetString(b + c) == Good(GetString(b).value, GetString(b).rest + c)
  {
    NulIndexMore(b, c);
    var i := NulIndex(b);
    assert (b + c)[..i] == b[..i] && (b + c)[i + 1..] == b[i + 1..] + c;
  }

  lemma GoodContinues4(b: Bytes, c: Bytes)
    requires Parse4(b).Good?
    ensures Parse4(b + c).Good? && Parse4(b + c).value == Parse4(b).value
  {
    assert (b + c)[8..] == b[8..] + c && (b + c)[4..8] == b[4..8];
    GoodString(b[8..], c);
    if Is4A(b) {
      GoodString(GetString(b[8..]).rest, c);
    }
  }

  /** Fed the beginning b of w, a SOCKS4 input is untouched while more is needed, and opens only if w opens. */
  predicate Sofar4(s: State, b: Bytes, w: Bytes) {
    && (s.status == Dynamic ==> s == Start.(input := b))
    && (s.status == Opening ==> Given(w).status == Opening)
    && s.status != Crashed
  }

  lemma Cut4Step(s: State, b: Bytes, last: Bytes, c: Bytes)
    requires |b + last + c| >= 3 && (b + last + c)[0] == 4 && Sofar4(s, b, b + last + c)
    ensures Sofar4(Feed(s, last), b + last, b + last + c)
  {
    var x := b + last;
    if Parse4(x).Good? {
      GoodContinues4(x, c);
    }
    if |x| > 0 {
      assert x[0] == (x + c)[0];
    }
  }

  lemma {:induction false} Cut4(chunks: seq<Bytes>, c: Bytes)
    requires |Flatten(chunks) + c| >= 3 && (Flatten(chunks) + c)[0] == 4
    ensures Sofar4(FeedAll(Start, chunks), Flatten(chunks), Flatten(chunks) + c)
    decreases |chunks|
  {
    if chunks != [] {
      var most, last := chunks[..|chunks| - 1], chunks[|chunks| - 1];
      assert Flatten(most) + (last + c) == Flatten(most) + last + c;
      Cut4(most, last + c);
      Cut4Step(FeedAll(Start, most), Flatten(most), last, c);
    }
  }

  /** A rejected input is rejected however it is cut. */
  lemma RejectedHoweverCut(chunks: seq<Bytes>)
    requires Given(Flatten(chunks)).status == Rejected
    ensures FeedAll(Start, chunks).status == Rejected
  {
    var w := Flatten(chunks);
    if !Sensitive(w) {
      CutsAgree(chunks);
    } else {
      assert Sensitive4(w);
      assert w + [] == w;
      var most, last := chunks[..|chunks| - 1], chunks[|chunks| - 1];
      Cut4(chunks, []);
      Cut4(most, last);
    }
  }

  lemma OneChunk(x: Bytes)
    ensures Flatten([x]) == x && FeedAll(Start, [x]) == Given(x)
  {
    assert [x][..0] == [] && [] + x == x;
    assert Start.(input := [] + x) == Start.(input := x);
  }

  lemma TwoChunks(x: Bytes, y: Bytes)
    ensures Flatten([x, y]) == x + y && FeedAll(Start, [x, y]) == Feed(Given(x), y)
  {
    assert [x, y][..1] == [x];
    OneChunk(x);
  }

  /** The point just before the NUL of a string at the limit. */
  function LimitCut(w: Bytes): nat
    requires Sensitive4(w)
  {
    if AtLimit(w[8..]) then 8 + MAX_STRING else |w| - |GetString(w[8..]).rest| + MAX_STRING
  }

  lemma BeforeLimit(b: Bytes)
    requires AtLimit(b)
    ensures GetString(b[..MAX_STRING]) == Bad
  {
    var x := b[..MAX_STRING];
    assert b == x + b[MAX_STRING..];
    NulIndexMore(x, b[MAX_STRING..]);
  }

  /** A string in front does not change where the second one stops. */
  lemma SecondString(t: Bytes, n: nat)
    requires GetString(t).Good? && n <= |GetString(t).rest|
    ensures var k := |t| - |GetString(t).rest| + n;
      k <= |t| && GetString(t[..k]).Good? && GetString(t[..k]).rest == GetString(t).rest[..n]
  {
    var user, rest := GetString(t).value, GetString(t).rest;
    FirstString(t);
    PrefixOfSum(user + [0], rest, n);
    TerminatedString(user, rest[..n]);
  }

  lemma PrefixOfSum(a: Bytes, b: Bytes, n: nat)
    requires n <= |b|
    ensures (a + b)[..|a| + n] == a + b[..n]
  {
  }

  lemma FirstString(t: Bytes)
    requires GetString(t).Good?
    ensures var user := GetString(t).value; NulFree(user) && |user| <= MAX_STRING && t == user + [0] + GetString(t).rest
  {
  }

  /** A refused user name, or host name, in the fixed header's surroundings. */
  lemma BadString(x: Bytes)
    requires |x| >= 9
    requires GetString(x[8..]) == Bad || (Is4A(x) && GetString(x[8..]).Good? && GetString(GetString(x[8..]).rest) == Bad)
    ensures Parse4(x) == Bad
  {
  }

  lemma CutHeader(w: Bytes, k: nat)
    requires 9 <= k <= |w|
    ensures w[..k][8..] == w[8..][..k - 8] && Is4A(w[..k]) == Is4A(w)
  {
  }

  /** Cutting a string at the limit just before its NUL gets it refused. */
  lemma CutAtLimit(w: Bytes)
    requires Sensitive4(w)
    ensures 9 <= LimitCut(w) <= |w| && Parse4(w[..LimitCut(w)]) == Bad
  {
    var k, t := LimitCut(w), w[8..];
    if AtLimit(t) {
      BeforeLimit(t);
    } else {
      BeforeLimit(GetString(t).rest);
      SecondString(t, MAX_STRING);
    }
    CutHeader(w, k);
    BadString(w[..k]);
  }

  /** Cutting between authentication and request keeps the decoder from stopping at a wrong version. */
  lemma CutAfterAuth(w: Bytes)
    requires Sensitive5(w)
    ensures var k := |w| - |ParseAuth(w).rest|; 3 <= k <= |w| && Feed(Given(w[..k]), w[k..]).status != Crashed
  {
    var k := |w| - |ParseAuth(w).rest|;
    var x, y := w[..k], w[k..];
    assert k == 2 + w[1] as int && x[2..] == w[2..k];
    assert ParseAuth(x) == Good((), []);
    assert Given(x) == Start.(output := [] + ReplyAuth, authDone := true);
    assert [] + y == y && y == ParseAuth(w).rest;
  }

  /** Same verdict and, unless it is a rejection, same destination, replies and remaining input. */
  predicate SameResult(s: State, t: State) { s.status == t.status && (s.status != Rejected ==> s == t) }

  ghost predicate CutInsensitive(w: Bytes) {
    forall chunks :: Flatten(chunks) == w ==> SameResult(FeedAll(Start, chunks), Given(w))
  }

  lemma AnyCutAgrees(w: Bytes, chunks: seq<Bytes>)
    requires !Sensitive(w) || Given(w).status == Rejected
    requires Flatten(chunks) == w
    ensures SameResult(FeedAll(Start, chunks), Given(w))
  {
    if !Sensitive(w) {
      CutsAgree(chunks);
    } else {
      RejectedHoweverCut(chunks);
    }
  }

  lemma RejectedPrefix(x: Bytes, y: Bytes)
    requires |x| >= 3 && x[0] == 4 && Parse4(x) == Bad
    ensures Feed(Given(x), y).status == Rejected
  {
  }

  lemma WrongVersionCrashes(w: Bytes)
    requires Sensitive5(w)
    ensures Given(w).status == Crashed
  {
  }

  lemma CutInTwo(w: Bytes, k: nat)
    requires 0 < k <= |w|
    ensures w[..k] + w[k..] == w && w[..k][0] == w[0]
  {
  }

  lemma RejectedCut(w: Bytes, k: nat) returns (chunks: seq<Bytes>)
    requires 3 <= k <= |w| && w[0] == 4 && Parse4(w[..k]) == Bad
    ensures Flatten(chunks) == w && FeedAll(Start, chunks).status == Rejected
  {
    var x, y := w[..k], w[k..];
    CutInTwo(w, k);
    RejectedPrefix(x, y);
    TwoChunks(x, y);
    chunks := [x, y];
  }

  lemma LimitCutDisagrees(w: Bytes) returns (chunks: seq<Bytes>)
    requires Sensitive4(w) && Given(w).status != Rejected
    ensures Flatten(chunks) == w && FeedAll(Start, chunks).status != Given(w).status
  {
    CutAtLimit(w);
    chunks := RejectedCut(w, LimitCut(w));
  }

  lemma AuthCutDisagrees(w: Bytes) returns (chunks: seq<Bytes>)
    requires Sensitive5(w)
    ensures Flatten(chunks) == w && FeedAll(Start, chunks).status != Given(w).status
  {
    var k := |w| - |ParseAuth(w).rest|;
    var x, y := w[..k], w[k..];
    TwoChunks(x, y);
    assert x + y == w;
    CutAfterAuth(w);
    WrongVersionCrashes(w);
    return [x, y];
  }

  lemma SomeCutDisagrees(w: Bytes) returns (chunks: seq<Bytes>)
    requires Sensitive(w) && Given(w).status != Rejected
    ensures Flatten(chunks) == w && FeedAll(Start, chunks).status != Given(w).status
  {
    if Sensitive4(w) {
      chunks := LimitCutDisagrees(w);
    } else {
      chunks := AuthCutDisagrees(w);
    }
  }

  /**
   SOCKS4 bytes that the decoder takes or leaves depending on where they are cut: a CONNECT whose user name, or whose host
   name in the SOCKS4A form, is exactly 1024 bytes long, with the host name, if any, not too long and perhaps unfinished.
   */
  predicate CutMatters4(w: Bytes) {
    && |w| >= 9 && w[0] == 4
    && var user := NulIndex(w[8..]);
    && user <= MAX_STRING && 8 + user < |w|
    && if !Is4A(w) then user == MAX_STRING && w[1] == 1
       else
         var name, left := NulIndex(w[9 + user..]), |w| - 9 - user;
         && (user == MAX_STRING || (name == MAX_STRING && name < left))
         && (if name == left then name < MAX_STRING else name <= MAX_STRING && w[1] == 1)
  }

  /** SOCKS5 bytes whose authentication, accepted, is followed by a byte other than the version 5. */
  predicate CutMatters5(w: Bytes) {
    |w| >= 3 && w[0] == 5 && var end := 2 + w[1] as int; end < |w| && 0 in w[2..end] && w[end] != 5
  }

  predicate Taken4(p: Parse<Request4>) { p.Short? || (p.Good? && p.value.cmd == 1) }

  lemma TakenUnlessRejected(w: Bytes)
    requires |w| >= 9 && w[0] == 4
    ensures Given(w).status != Rejected <==> Taken4(Parse4(w))
  {
  }

  lemma CutMattersUser(w: Bytes)
    requires |w| >= 9 && w[0] == 4 && !Is4A(w)
    ensures CutMatters4(w) <==> Sensitive4(w) && Taken4(Parse4(w))
  {
  }

  lemma CutMattersName(w: Bytes)
    requires |w| >= 9 && w[0] == 4 && Is4A(w)
    ensures CutMatters4(w) <==> Sensitive4(w) && Taken4(Parse4(w))
  {
    var t := w[8..];
    var user := NulIndex(t);
    if user < |t| {
      assert t[user + 1..] == w[9 + user..];
    }
  }

  lemma CutMatters4Iff(w: Bytes)
    ensures CutMatters4(w) <==> Sensitive4(w) && Given(w).status != Rejected
  {
    if |w| >= 9 && w[0] == 4 {
      TakenUnlessRejected(w);
      if Is4A(w) {
        CutMattersName(w);
      } else {
        CutMattersUser(w);
      }
    }
  }

  lemma CutMatters5Iff(w: Bytes)
    ensures CutMatters5(w) <==> Sensitive5(w)
  {
  }

  /**
   Exactly which inputs decode the same however they are cut into chunks. The two kinds that do not are given by their
   bytes.
   */
  lemma CutInsensitiveIff(w: Bytes)
    ensures CutInsensitive(w) <==> !CutMatters4(w) && !CutMatters5(w)
  {
    CutMatters4Iff(w);
    CutMatters5Iff(w);
    if Sensitive5(w) {
      WrongVersionCrashes(w);
    }
    if !Sensitive(w) || Given(w).status == Rejected {
      forall chunks | Flatten(chunks) == w ensures SameResult(FeedAll(Start, chunks), Given(w)) {
        AnyCutAgrees(w, chunks);
      }
    } else {
      var chunks := SomeCutDisagrees(w);
      assert !SameResult(FeedAll(Start, chunks), Given(w));
    }
  }

  // ---- well-formed exchanges

  function Encode4(user: Bytes, addr: Bytes, port: nat): Bytes
    requires |addr| == 4 && port < 65536
  {
    [4, 1, port / 256, port % 256] + addr + user + [0]
  }

  /** Address type byte and address of a SOCKS5 request. */
  function EncodeHost(h: Host): Bytes
    requires h.Name? ==> |h.name| < 256
  {
    match h
    case Quad(addr) => [1] + addr
    case V6(addr) => [4] + addr
    case Name(name) => [3, |name|] + name
  }

  lemma TerminatedString(s: Bytes, rest: Bytes)
    requires NulFree(s)
    ensures NulIndex(s + [0] + rest) == |s|
    ensures |s| <= MAX_STRING ==> GetString(s + [0] + rest) == Good(s, rest)
  {
    var b := s + [0] + rest;
    assert s[..|s|] == s;
    NulIndexMore(s, [0] + rest);
    assert b == s + ([0] + rest);
    assert b[..|s|] == s && b[|s| + 1..] == rest;
  }

  /** What follows the fixed part of a SOCKS4 request. */
  lemma AfterHeader(user: Bytes, addr: Bytes, port: nat, more: Bytes)
    requires |addr| == 4 && port < 65536
    ensures var w := Encode4(user, addr, port) + more;
      && |w| >= 9 && w[0] == 4 && w[1] == 1 && U16(w, 2) == port && w[4..8] == addr && w[8..] == user + [0] + more
      && Is4A(w) == (addr[0] == addr[1] == addr[2] == 0 && addr[3] != 0)
  {
    var w := Encode4(user, addr, port) + more;
    assert w[4] == w[4..8][0] && w[5] == w[4..8][1] && w[6] == w[4..8][2] && w[7] == w[4..8][3];
  }

  lemma Parses4(user: Bytes, addr: Bytes, port: nat, rest: Bytes)
    requires NulFree(user) && |user| <= MAX_STRING && |addr| == 4 && port < 65536
    requires !(addr[0] == addr[1] == addr[2] == 0 && addr[3] != 0)
    ensures var w := Encode4(user, addr, port) + rest;
      && w[0] == 4 && Parse4(w) == Good(Request4(1, Quad(addr), port), rest)
      && (Sensitive4(w) <==> |user| == MAX_STRING)
  {
    AfterHeader(user, addr, port, rest);
    TerminatedString(user, rest);
  }

  lemma Parses4A(user: Bytes, tag: Byte, host: Bytes, port: nat, rest: Bytes)
    requires NulFree(user) && NulFree(host) && |user| <= MAX_STRING && |host| <= MAX_STRING && tag != 0 && port < 65536
    ensures var w := Encode4(user, [0, 0, 0, tag], port) + (host + [0] + rest);
      && w[0] == 4 && Parse4(w) == Good(Request4(1, Name(host), port), rest)
      && (Sensitive4(w) <==> |user| == MAX_STRING || |host| == MAX_STRING)
  {
    var w, more := Encode4(user, [0, 0, 0, tag], port) + (host + [0] + rest), host + [0] + rest;
    AfterHeader(user, [0, 0, 0, tag], port, more);
    TerminatedString(user, more);
    TerminatedString(host, rest);
    ParseIsTail(w);
  }

  lemma ParsesAuth(methods: Bytes, rest: Bytes)
    requires |methods| < 256
    ensures ParseAuth([5, |methods|] + methods + rest) == if 0 in methods then Good((), rest) else Bad
  {
    var w, end := [5, |methods|] + methods + rest, 2 + |methods|;
    assert w[2..end] == methods && w[end..] == rest;
  }

  predicate ProperHost(h: Host) {
    match h
    case Quad(addr) => |addr| == 4
    case V6(addr) => |addr| == 16
    case Name(name) => |name| < 256 && NulFree(name)
  }

  function EncodeRequest5(h: Host, port: nat): Bytes
    requires ProperHost(h) && port < 65536
  {
    [5, 1, 0] + EncodeHost(h) + [port / 256, port % 256]
  }

  /** The parts of what follows a request's first bytes. */
  lemma Fields(head: Bytes, addr: Bytes, last: Bytes, rest: Bytes)
    ensures var w, n := head + (addr + (last + rest)), |head| + |addr|;
      && w[..|head|] == head && w[|head|..n] == addr && w[n..n + |last|] == last && w[n + |last|..] == rest
  {
  }

  lemma ParsesAddress(kind: Byte, head: Bytes, addr: Bytes, port: nat, rest: Bytes)
    requires port < 65536
    ensures var w := head + (addr + ([port / 256, port % 256] + rest));
      var host := if kind == 1 then Quad(addr) else if kind == 4 then V6(addr) else Name(CString(addr));
      ParseAddress(w, kind, |head|, |addr|) == Good(Request5(host, port), rest)
  {
    var last := [port / 256, port % 256];
    var w, n := head + (addr + (last + rest)), |head| + |addr|;
    Fields(head, addr, last, rest);
    assert w[n] == w[n..n + 2][0] && w[n + 1] == w[n..n + 2][1];
  }

  lemma Pieces(a: Bytes, b: Bytes, c: Bytes, d: Bytes, e: Bytes)
    ensures (a + (b + c) + d) + e == (a + b) + (c + (d + e))
  {
  }

  lemma Parses5(h: Host, port: nat, rest: Bytes)
    requires ProperHost(h) && port < 65536
    ensures Parse5(EncodeRequest5(h, port) + rest) == Good(Request5(h, port), rest)
  {
    var start, last := [5, 1, 0], [port / 256, port % 256];
    match h
    case Quad(addr) => {
      Pieces(start, [1], addr, last, rest);
      ParsesAddress(1, start + [1], addr, port, rest);
    }
    case V6(addr) => {
      Pieces(start, [4], addr, last, rest);
      ParsesAddress(4, start + [4], addr, port, rest);
    }
    case Name(name) => {
      Pieces(start, [3, |name|], name, last, rest);
      assert name[..|name|] == name;
      ParsesAddress(3, start + [3, |name|], name, port, rest);
    }
  }

  /**
   Every cut of a SOCKS4 CONNECT, with any bytes after it, opens the same destination, leaves those bytes, and is answered
   with the eight bytes of a granted request.
   */
  lemma Socks4HoweverCut(user: Bytes, addr: Bytes, port: nat, rest: Bytes, chunks: seq<Bytes>)
    requires NulFree(user) && |user| < 1024 && |addr| == 4 && port < 65536
    requires !(addr[0] == addr[1] == addr[2] == 0 && addr[3] != 0)
    requires Flatten(chunks) == Encode4(user, addr, port) + rest
    ensures FeedAll(Start, chunks) == State(Opening, rest, [0, 90, 0, 0, 0, 0, 0, 0], false, Some(Quad(addr)), port)
  {
    Parses4(user, addr, port, rest);
    CutsAgree(chunks);
    assert [] + Reply4 == Reply4;
  }

  lemma Socks4AHoweverCut(user: Bytes, tag: Byte, host: Bytes, port: nat, rest: Bytes, chunks: seq<Bytes>)
    requires NulFree(user) && NulFree(host) && |user| < 1024 && |host| < 1024 && tag != 0 && port < 65536
    requires Flatten(chunks) == Encode4(user, [0, 0, 0, tag], port) + (host + [0] + rest)
    ensures FeedAll(Start, chunks) == State(Opening, rest, [0, 90, 0, 0, 0, 0, 0, 0], false, Some(Name(host)), port)
  {
    Parses4A(user, tag, host, port, rest);
    CutsAgree(chunks);
    assert [] + Reply4 == Reply4;
  }

  lemma Given5(methods: Bytes, request: Bytes, h: Host, port: nat, rest: Bytes)
    requires |methods| < 256 && 0 in methods && Parse5(request) == Good(Request5(h, port), rest)
    ensures var w := [5, |methods|] + methods + request;
      !Sensitive(w) && Given(w) == State(Opening, rest, ReplyAuth + Reply5(port), true, Some(h), port)
  {
    ParsesAuth(methods, request);
    assert [] + ReplyAuth == ReplyAuth;
  }

  /**
   The answer to a SOCKS5 client: version 5 and no authentication, then version 5, success, a reserved byte, an IPv4
   address of zeros and the port.
   */
  predicate Answered5(out: Bytes, port: nat) {
    |out| == 12 && out[..2] == [5, 0] && out[2..10] == [5, 0, 0, 1, 0, 0, 0, 0] && U16(out, 10) == port
  }

  lemma AnswerIs(port: nat)
    requires port < 65536
    ensures Answered5(ReplyAuth + Reply5(port), port)
  {
  }

  /** Every cut of a SOCKS5 CONNECT after an offer of no authentication, likewise. */
  lemma Socks5HoweverCut(methods: Bytes, h: Host, port: nat, rest: Bytes, chunks: seq<Bytes>)
    requires |methods| < 256 && 0 in methods && ProperHost(h) && port < 65536
    requires Flatten(chunks) == [5, |methods|] + methods + (EncodeRequest5(h, port) + rest)
    ensures var s := FeedAll(Start, chunks);
      s == State(Opening, rest, s.output, true, Some(h), port) && Answered5(s.output, port)
  {
    AnswerIs(port);
    Parses5(h, port, rest);
    Given5(methods, EncodeRequest5(h, port) + rest, h, port, rest);
    CutsAgree(chunks);
  }

  /** Asking for more consumes nothing but a complete authentication message. */
  lemma MoreConsumesNoPartialMessage(s: State)
    requires s.status == Dynamic && PreDynamic(s).status == Dynamic
    ensures var t := PreDynamic(s);
      t == s || (!s.authDone && ParseAuth(s.input) == Good((), t.input)
                 && t == s.(input := t.input, output := s.output + ReplyAuth, authDone := true))
  {
  }
}
