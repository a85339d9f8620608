/** The data types of section 5 of RFC 4251 as sshbuf-getput-basic.c writes and reads them. */
module Wire {
  import opened Basics

  const SSHBUF_SIZE_MAX := 0x800_0000

  datatype Error = Incomplete | InvalidFormat | TooLarge

  datatype Got<T> = Got(v: T, rest: Bytes) | Bad(e: Error)

  /** v in k bytes, most significant first */
  function PutInt(v: nat, k: nat): (b: Bytes)
    ensures |b| == k
  {
    if k == 0 then [] else PutInt(v / 256, k - 1) + [v % 256]
  }

  function PeekInt(b: Bytes): nat {
    if b == [] then 0 else PeekInt(b[..|b| - 1]) * 256 + b[|b| - 1]
  }

  function GetInt(b: Bytes, k: nat): Got<nat> {
    if |b| < k then Bad(Incomplete) else Got(PeekInt(b[..k]), b[k..])
  }

  /** sshbuf_put_string */
  function PutString(s: Bytes): Bytes { PutInt(|s|, 4) + s }

  /** sshbuf_peek_string_direct and sshbuf_consume */
  function GetString(b: Bytes): Got<Bytes> {
    if |b| < 4 then Bad(Incomplete)
    else
      var n := PeekInt(b[..4]);
      if n > SSHBUF_SIZE_MAX - 4 then Bad(TooLarge)
      else if |b| - 4 < n then Bad(Incomplete)
      else Got(b[4..4 + n], b[4 + n..])
  }

  /** sshbuf_get_cstring: a NUL may only come last, and then ends the C string. */
  function GetCString(b: Bytes): Got<Bytes> {
    match GetString(b)
    case Bad(e) => Bad(e)
    case Got(s, rest) =>
      if s != [] && 0 in s[..|s| - 1] then Bad(InvalidFormat)
      else Got(if s != [] && s[|s| - 1] == 0 then s[..|s| - 1] else s, rest)
  }

  // ---- round trips

  lemma {:induction false} PeekPut(v: nat, k: nat)
    requires v < Pow256(k)
    ensures PeekInt(PutInt(v, k)) == v
  {
    if k > 0 {
      PeekPut(v / 256, k - 1);
      assert PutInt(v, k)[..k - 1] == PutInt(v / 256, k - 1);
    }
  }

  lemma Prefix(a: Bytes, b: Bytes)
    ensures (a + b)[..|a|] == a && (a + b)[|a|..] == b
  {
  }

  lemma GetPutInt(v: nat, k: nat, rest: Bytes)
    requires v < Pow256(k)
    ensures GetInt(PutInt(v, k) + rest, k) == Got(v, rest)
  {
    PeekPut(v, k);
    Prefix(PutInt(v, k), rest);
  }

  lemma Sizes()
    ensures Pow256(1) == 256 && Pow256(4) == TWO_TO_32 && Pow256(8) == 0x1_0000_0000_0000_0000
  {
    assert Pow256(2) == 0x1_0000;
    assert Pow256(3) == 0x100_0000;
    assert Pow256(5) == 0x100_0000_0000;
    assert Pow256(6) == 0x1_0000_0000_0000;
    assert Pow256(7) == 0x100_0000_0000_0000;
  }

  lemma GetPutString(s: Bytes, rest: Bytes)
    requires |s| <= SSHBUF_SIZE_MAX - 4
    ensures GetString(PutString(s) + rest) == Got(s, rest)
  {
    Sizes();
    var n := PutInt(|s|, 4);
    PeekPut(|s|, 4);
    assert (n + s) + rest == n + (s + rest);
    Prefix(n, s + rest);
    assert (n + (s + rest))[4..4 + |s|] == s && (n + (s + rest))[4 + |s|..] == rest;
  }

  /** What a length in front of other bytes comes to: more than the buffer can hold, more than there are, or a string. */
  lemma LengthDecides(n: U32, s: Bytes)
    ensures GetString(PutInt(n, 4) + s) == if n > 0x7ff_fffc then Bad(TooLarge) else if n > |s| then Bad(Incomplete) else Got(s[..n], s[n..])
  {
    var b := PutInt(n, 4) + s;
    Sizes();
    PeekPut(n, 4);
    assert b[..4] == PutInt(n, 4);
    if n <= |s| {
      assert b[4..4 + n] == s[..n] && b[4 + n..] == s[n..];
    }
  }

  lemma GetPutCString(s: Bytes, rest: Bytes)
    requires |s| <= SSHBUF_SIZE_MAX - 4 && NulFree(s)
    ensures GetCString(PutString(s) + rest) == Got(s, rest)
  {
    GetPutString(s, rest);
  }
}

/** struct sshbuf as a growing byte string with a size limit; reading takes from the front. */
module SshBuffer {
  import opened Basics
  import opened Wire

  class Sshbuf {
    var data: Bytes

    constructor (b: Bytes)
      ensures data == b
    {
      data := b;
    }

    /** sshbuf_put through sshbuf_reserve; false is SSH_ERR_NO_BUFFER_SPACE */
    method Put(b: Bytes) returns (ok: bool)
      modifies this
      ensures ok <==> |old(data)| + |b| <= SSHBUF_SIZE_MAX
      ensures data == if ok then old(data) + b else old(data)
    {
      ok := |data| + |b| <= SSHBUF_SIZE_MAX;
      if ok {
        data := data + b;
      }
    }

    method PutString(b: Bytes) returns (ok: bool)
      modifies this
      ensures ok <==> |old(data)| + 4 + |b| <= SSHBUF_SIZE_MAX
      ensures data == if ok then old(data) + Wire.PutString(b) else old(data)
    {
      if |b| > SSHBUF_SIZE_MAX - 4 {
        return false;
      }
      ok := Put(PutInt(|b|, 4) + b);
    }

    /** sshbuf_get_u8, sshbuf_get_u32, sshbuf_get_u64 */
    method GetInt(k: nat) returns (r: Option<nat>)
      modifies this
      ensures match Wire.GetInt(old(data), k)
        case Got(v, rest) => r == Some(v) && data == rest
        case Bad(_) => r == None && data == old(data)
    {
      if |data| < k {
        return None;
      }
      r := Some(PeekInt(data[..k]));
      data := data[k..];
    }

    method GetString() returns (r: Got<Bytes>)
      modifies this
      ensures r == Wire.GetString(old(data))
      ensures data == if r.Got? then r.rest else old(data)
    {
      r := Wire.GetString(data);
      if r.Got? {
        data := r.rest;
      }
    }

    method GetCString() returns (r: Got<Bytes>)
      modifies this
      ensures r == Wire.GetCString(old(data))
      ensures data == if r.Got? then r.rest else old(data)
    {
      r := Wire.GetString(data);
      if r.Got? {
        var s := r.v;
        if s != [] && 0 in s[..|s| - 1] {
          r := Bad(InvalidFormat);
        } else {
          data := r.rest;
          r := Got(if s != [] && s[|s| - 1] == 0 then s[..|s| - 1] else s, r.rest);
        }
      }
    }
  }
}
