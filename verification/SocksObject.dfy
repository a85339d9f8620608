/**
 A dynamic-forwarding channel and the functions of channels.c that decode its SOCKS request in place. They
 work on a copy of the input and consume the input only when a message is complete.
 */
module SocksObject {
  import opened Basics
  import S = Socks
  import opened Socks

  /** Return value of the decoders: 0, -1, 1, or no return because of fatal(). */
  datatype Verdict = More | Fail | Done | Abort

  function StatusAfter(v: Verdict): Status {
    match v case More => Dynamic case Fail => Rejected case Done => Opening case Abort => Crashed
  }

  class DynamicChannel {
    var status: Status
    var input: Bytes
    var output: Bytes
    var authDone: bool
    var path: Option<Host>
    var port: nat

    function View(): State
      reads this
    {
      State(status, input, output, authDone, path, port)
    }

    constructor ()
      ensures View() == Start
    {
      status, input, output, authDone, path, port := Dynamic, [], [], false, None, 0;
    }

    /** channel_decode_socks4 up to the handling of the request, on a copy of the input */
    method ParseSocks4() returns (p: Parse<Request4>)
      ensures p == Parse4(input)
    {
      if |input| < 9 {
        return Short;
      }
      var cmd, destPort, addr := input[1], U16(input, 2), input[4..8];
      var user := GetString(input[8..]);
      if !user.Good? {
        return if user.Short? then Short else Bad;
      }
      if addr[0] == 0 && addr[1] == 0 && addr[2] == 0 && addr[3] != 0 {
        var name := GetString(user.rest);
        if !name.Good? {
          return if name.Short? then Short else Bad;
        }
        return Good(Request4(cmd, Name(name.value), destPort), name.rest);
      }
      return Good(Request4(cmd, Quad(addr), destPort), user.rest);
    }

    method DecodeSocks4() returns (v: Verdict)
      requires status == Dynamic
      modifies `input, `output, `path, `port
      ensures Decode4(old(View())) == View().(status := StatusAfter(v))
    {
      var p := ParseSocks4();
      if !p.Good? {
        return if p.Short? then More else Fail;
      }
      input := p.rest;
      if p.value.cmd != 1 {
        return Fail;
      }
      path := Some(p.value.host);
      port := p.value.port;
      output := output + Reply4;
      return Done;
    }

    /** channel_socks5_check_auth: counts the offered methods, looking for no authentication */
    method Socks5CheckAuth() returns (v: Verdict)
      requires status == Dynamic && |input| >= 1 && input[0] == 5
      modifies `input, `output
      ensures match ParseAuth(old(input))
        case Good(_, rest) => v == Done && input == rest && output == old(output) + ReplyAuth
        case Short => v == More && input == old(input) && output == old(output)
        case _ => v == Fail && input == old(input) && output == old(output)
    {
      var b := input[1..];
      if |b| < 1 {
        return More;
      }
      var methods: nat := b[0] as int;
      b := b[1..];
      var found, i := false, 0;
      while i < methods
        invariant 0 <= i <= methods
        invariant 2 + i <= |input| && b == input[2 + i..]
        invariant found <==> 0 in input[2..2 + i]
      {
        if |b| < 1 {
          return More;
        }
        if b[0] == 0 {
          found := true;
        }
        assert input[2..2 + i + 1] == input[2..2 + i] + [input[2 + i]];
        b := b[1..];
        i := i + 1;
      }
      if !found {
        return Fail;
      }
      input := b;
      output := output + ReplyAuth;
      return Done;
    }

    method DecodeRequest() returns (v: Verdict)
      requires status == Dynamic
      modifies `input, `output, `path, `port
      ensures DecodeRequest5(old(View())) == View().(status := StatusAfter(v))
    {
      var b := input;
      if |b| < 1 {
        return More;
      }
      if b[0] != 5 {
        return Abort;
      }
      if |b| < 4 {
        return More;
      }
      var atyp := b[3];
      if b[1] != 1 || b[2] != 0 {
        return Fail;
      }
      var len: nat, off: nat := 0, 4;
      if atyp == 1 {
        len := 4;
      } else if atyp == 3 {
        if |b| < 5 {
          return More;
        }
        len, off := b[4] as int, 5;
      } else if atyp == 4 {
        len := 16;
      } else {
        return Fail;
      }
      if |b| < off + len + 2 {
        return More;
      }
      var addr, destPort := b[off..off + len], U16(b, off + len);
      input := b[off + len + 2..];
      path := Some(if atyp == 3 then Name(CString(addr)) else if atyp == 1 then Quad(addr) else V6(addr));
      port := destPort;
      output := output + Reply5(destPort);
      return Done;
    }

    method DecodeSocks5() returns (v: Verdict)
      requires status == Dynamic && |input| >= 1 && input[0] == 5
      modifies `input, `output, `authDone, `path, `port
      ensures Decode5(old(View())) == View().(status := StatusAfter(v))
    {
      if !authDone {
        v := Socks5CheckAuth();
        if v != Done {
          return;
        }
        authDone := true;
      }
      v := DecodeRequest();
    }

    /** channel_pre_dynamic */
    method PreDynamic()
      requires status == Dynamic
      modifies this
      ensures View() == S.PreDynamic(old(View()))
    {
      if |input| < 3 {
        return;
      }
      var v: Verdict;
      if input[0] == 4 {
        v := DecodeSocks4();
      } else if input[0] == 5 {
        v := DecodeSocks5();
      } else {
        v := Fail;
      }
      status := StatusAfter(v);
    }

    /** Data read from the client. */
    method Append(chunk: Bytes)
      modifies this
      ensures View() == Feed(old(View()), chunk)
    {
      input := input + chunk;
      if status == Dynamic {
        PreDynamic();
      }
    }
  }
}
