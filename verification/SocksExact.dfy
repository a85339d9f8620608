/** Exactly which bytes the SOCKS decoder opens, rejects and stops at, when they come in one piece. */
module SocksExact {
  import opened Basics
  import opened Socks

  // ---- what is opened is a request, and is read as it was written

  lemma Spelled(w: Bytes, user: Bytes, rest: Bytes)
    requires |w| >= 9 && w[0] == 4 && w[1] == 1 && w[8..] == user + [0] + rest
    ensures w == Encode4(user, w[4..8], U16(w, 2)) + rest
  {
    var head := [4, 1, U16(w, 2) / 256, U16(w, 2) % 256];
    assert w == w[..4] + w[4..8] + w[8..] && w[..4] == head;
    assert head + w[4..8] + (user + [0] + rest) == head + w[4..8] + user + [0] + rest;
  }

  /** The two forms of an input that is opened. */
  lemma Opened4(w: Bytes)
    requires |w| >= 3 && w[0] == 4 && Given(w).status == Opening
    ensures |w| >= 9 && w[1] == 1 && GetString(w[8..]).Good?
    ensures !Is4A(w) ==> Given(w) == State(Opening, GetString(w[8..]).rest, [] + Reply4, false, Some(Quad(w[4..8])), U16(w, 2))
    ensures Is4A(w) ==>
      && var name := GetString(GetString(w[8..]).rest);
      name.Good? && Given(w) == State(Opening, name.rest, [] + Reply4, false, Some(Name(name.value)), U16(w, 2))
  {
    ParseIsTail(w);
  }

  lemma RecoversQuad(w: Bytes, user: Bytes, rest: Bytes)
    requires |w| >= 9 && w[0] == 4 && w[1] == 1 && GetString(w[8..]) == Good(user, rest)
    ensures NulFree(user) && |user| <= 1024 && Written4(w, user, Quad(w[4..8]), U16(w, 2), rest)
  {
    FirstString(w[8..]);
    Spelled(w, user, rest);
  }

  lemma RecoversName(w: Bytes, user: Bytes, rest: Bytes, name: Bytes, more: Bytes)
    requires |w| >= 9 && w[0] == 4 && w[1] == 1 && Is4A(w) && GetString(w[8..]) == Good(user, rest) && GetString(rest) == Good(name, more)
    ensures NulFree(user) && |user| <= 1024 && Written4(w, user, Name(name), U16(w, 2), more)
  {
    FirstString(w[8..]);
    FirstString(rest);
    Spelled(w, user, rest);
    assert w[4..8] == [0, 0, 0, w[7]];
  }

  /** An opened SOCKS4 input is a CONNECT, with its destination, its port and what follows as the state has them. */
  lemma Recovers4(w: Bytes) returns (user: Bytes)
    requires |w| >= 3 && w[0] == 4 && Given(w).status == Opening
    ensures var s := Given(w);
      && NulFree(user) && |user| <= 1024 && s.port < 65536 && s.path.Some? && s.output == [0, 90, 0, 0, 0, 0, 0, 0]
      && Written4(w, user, s.path.value, s.port, s.input)
  {
    Opened4(w);
    assert [] + Reply4 == Reply4;
    user := GetString(w[8..]).value;
    var rest := GetString(w[8..]).rest;
    if Is4A(w) {
      RecoversName(w, user, rest, GetString(rest).value, GetString(rest).rest);
    } else {
      RecoversQuad(w, user, rest);
    }
  }

  /** The bytes w are a CONNECT to h at that port, followed by `rest`. */
  predicate Written4(w: Bytes, user: Bytes, h: Host, port: nat, rest: Bytes)
    requires port < 65536
  {
    match h
    case Quad(addr) => |addr| == 4 && w == Encode4(user, addr, port) + rest
    case Name(name) =>
      && NulFree(name) && |name| <= 1024 && |w| >= 8 && w[7] != 0
      && w == Encode4(user, [0, 0, 0, w[7]], port) + (name + [0] + rest)
    case V6(_) => false
  }

  /** The bytes of an address in a SOCKS5 request and the destination they stand for; a name ends at its first NUL. */
  predicate Addresses(b: Bytes, h: Host) {
    match h
    case Quad(addr) => |addr| == 4 && b == [1] + addr
    case V6(addr) => |addr| == 16 && b == [4] + addr
    case Name(name) => |b| >= 2 && |b| < 258 && b[0] == 3 && b[1] == |b| - 2 && name == CString(b[2..])
  }

  lemma AddressPiece(b: Bytes, kind: Byte, off: nat, len: nat)
    requires off >= 4 && |b| >= 3 && b[..3] == [5, 1, 0] && ParseAddress(b, kind, off, len).Good?
    ensures var p := ParseAddress(b, kind, off, len);
      && p.value.port < 65536 && off + len + 2 <= |b|
      && b == [5, 1, 0] + b[3..off + len] + ([p.value.port / 256, p.value.port % 256] + p.rest)
  {
    assert b == b[..3] + b[3..off + len] + b[off + len..];
  }

  /** A request that parses is a CONNECT to the destination and port it gives, and what follows it. */
  lemma RecoversRequest(b: Bytes) returns (address: Bytes)
    requires Parse5(b).Good?
    ensures var p := Parse5(b);
      && p.value.port < 65536 && Addresses(address, p.value.host)
      && b == [5, 1, 0] + address + ([p.value.port / 256, p.value.port % 256] + p.rest)
  {
    assert b[..3] == [5, 1, 0];
    if b[3] == 1 {
      AddressPiece(b, 1, 4, 4);
      address := b[3..8];
      assert address == [1] + b[4..8];
    } else if b[3] == 4 {
      AddressPiece(b, 4, 4, 16);
      address := b[3..20];
      assert address == [4] + b[4..20];
    } else {
      AddressPiece(b, 3, 5, b[4]);
      address := b[3..5 + b[4] as int];
      assert address[2..] == b[5..5 + b[4] as int];
    }
  }

  lemma RecoversAuth(w: Bytes) returns (methods: Bytes)
    requires |w| >= 1 && w[0] == 5 && ParseAuth(w).Good?
    ensures |methods| < 256 && 0 in methods && w == [5, |methods|] + methods + ParseAuth(w).rest
  {
    var end := 2 + w[1] as int;
    methods := w[2..end];
    assert w == w[..2] + w[2..end] + w[end..];
  }

  /** An opened SOCKS5 input offers no authentication and is a CONNECT, with everything as the state has it. */
  lemma Recovers5(w: Bytes) returns (methods: Bytes, address: Bytes)
    requires |w| >= 3 && w[0] == 5 && Given(w).status == Opening
    ensures var s := Given(w);
      && |methods| < 256 && 0 in methods && s.port < 65536 && s.path.Some? && Addresses(address, s.path.value)
      && w == [5, |methods|] + methods + ([5, 1, 0] + address + ([s.port / 256, s.port % 256] + s.input))
      && Answered5(s.output, s.port)
  {
    methods := RecoversAuth(w);
    address := RecoversRequest(ParseAuth(w).rest);
    var s := Given(w);
    AnswerIs(s.port);
    assert [] + ReplyAuth + Reply5(s.port) == ReplyAuth + Reply5(s.port);
  }

  // ---- what is rejected, and what stops the process

  /** A NUL-terminated string at i is too long: its first 1024 bytes hold no NUL and none is known to follow at once. */
  predicate TooLong(w: Bytes, i: nat)
    requires i <= |w|
  {
    |w| - i >= 1024 && 0 !in w[i..i + 1024] && (|w| - i > 1024 ==> w[i + 1024] != 0)
  }

  lemma TooLongIff(w: Bytes, i: nat)
    requires i <= |w|
    ensures TooLong(w, i) <==> GetString(w[i..]) == Bad
  {
    var b := w[i..];
    var n := NulIndex(b);
    if |b| >= 1024 {
      assert w[i..i + 1024] == b[..1024];
      if n < 1024 {
        assert b[..1024][n] == 0;
      } else {
        assert forall j :: 0 <= j < 1024 ==> b[..1024][j] == b[..n][j];
      }
    }
  }

  /** A user name or host name that is too long, or a complete request that is no CONNECT. */
  predicate Rejects4(w: Bytes) {
    && |w| >= 9 && w[0] == 4
    && (|| TooLong(w, 8)
        || (&& 0 in w[8..]
            && var next := 9 + NulIndex(w[8..]);
            if Is4A(w) then TooLong(w, next) || (0 in w[next..] && w[1] != 1) else w[1] != 1))
  }

  /** No offer of going without authentication, or a request that is no CONNECT, has its reserved byte set or no known address type. */
  predicate Rejects5(w: Bytes) {
    && |w| >= 3 && w[0] == 5
    && var end := 2 + w[1] as int;
    && |w| >= end
    && (|| 0 !in w[2..end]
        || (|w| >= end + 4 && w[end] == 5 && (w[end + 1] != 1 || w[end + 2] != 0 || w[end + 3] !in {1, 3, 4})))
  }

  lemma NulThere(b: Bytes)
    ensures NulIndex(b) < |b| <==> 0 in b
  {
    assert b[..|b|] == b;
  }

  /** The strings of a SOCKS4 input by their place in it. */
  lemma Strings4(w: Bytes)
    requires |w| >= 9
    ensures TooLong(w, 8) <==> GetString(w[8..]) == Bad
    ensures 0 in w[8..] <==> NulIndex(w[8..]) < |w| - 8
    ensures 0 in w[8..] && !TooLong(w, 8) ==> GetString(w[8..]) == Good(w[8..][..NulIndex(w[8..])], w[9 + NulIndex(w[8..])..])
    ensures 0 !in w[8..] && !TooLong(w, 8) ==> GetString(w[8..]) == Short
  {
    TooLongIff(w, 8);
    NulThere(w[8..]);
    if 0 in w[8..] {
      assert w[8..][NulIndex(w[8..]) + 1..] == w[9 + NulIndex(w[8..])..];
    }
  }

  lemma NextString(w: Bytes, next: nat)
    requires next <= |w|
    ensures TooLong(w, next) <==> GetString(w[next..]) == Bad
    ensures !TooLong(w, next) ==> (0 in w[next..] <==> GetString(w[next..]).Good?)
  {
    TooLongIff(w, next);
    NulThere(w[next..]);
  }

  lemma RejectsUser(w: Bytes)
    requires |w| >= 9 && w[0] == 4 && !Is4A(w)
    ensures Rejects4(w) <==> !Taken4(Parse4(w))
  {
    Strings4(w);
  }

  lemma RejectsName(w: Bytes)
    requires |w| >= 9 && w[0] == 4 && Is4A(w)
    ensures Rejects4(w) <==> !Taken4(Parse4(w))
  {
    Strings4(w);
    if 0 in w[8..] {
      NextString(w, 9 + NulIndex(w[8..]));
    }
  }

  lemma Rejects4Iff(w: Bytes)
    requires |w| >= 3 && w[0] == 4
    ensures Given(w).status == Rejected <==> Rejects4(w)
  {
    if |w| >= 9 {
      TakenUnlessRejected(w);
      if Is4A(w) {
        RejectsName(w);
      } else {
        RejectsUser(w);
      }
    }
  }

  lemma Rejects5Iff(w: Bytes)
    requires |w| >= 3 && w[0] == 5
    ensures Given(w).status == Rejected <==> Rejects5(w)
  {
    var end := 2 + w[1] as int;
    if |w| >= end {
      var b := w[end..];
      if |b| >= 4 {
        assert b[0] == w[end] && b[1] == w[end + 1] && b[2] == w[end + 2] && b[3] == w[end + 3];
      }
    }
  }

  /** Exactly which inputs are rejected, by their bytes. */
  lemma RejectsIff(w: Bytes)
    ensures Given(w).status == Rejected <==> |w| >= 3 && ((w[0] != 4 && w[0] != 5) || Rejects4(w) || Rejects5(w))
  {
    if |w| >= 3 && w[0] == 4 {
      Rejects4Iff(w);
    } else if |w| >= 3 && w[0] == 5 {
      Rejects5Iff(w);
    }
  }

  /** The decoder stops the process exactly at a wrong version after the authentication. */
  lemma CrashesIff(w: Bytes)
    ensures Given(w).status == Crashed <==> CutMatters5(w)
  {
    CutMatters5Iff(w);
    if Sensitive5(w) {
      WrongVersionCrashes(w);
    }
  }

  /** A rejected client has been told at most that it need not authenticate, and nothing is opened for it. */
  lemma RejectedUnanswered(w: Bytes)
    requires Given(w).status == Rejected
    ensures Given(w).path == None && (Given(w).output == [] || (|w| >= 3 && w[0] == 5 && Given(w).output == [5, 0]))
  {
    assert [] + ReplyAuth == ReplyAuth;
  }
}
