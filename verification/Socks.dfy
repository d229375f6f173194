/** The SOCKS handshake of the session proxy (dialSOCKS and discardSOCKSAddress,
    internal/proxy/proxy.go), against the wire formats of RFC 1928.

    The local proxy is an arbitrary byte stream; a write may fail at any time. */
module Socks {
  import opened Wrappers
  import Decimal

  newtype byte = x: int | 0 <= x < 256

  // ------------------------------------------- the wire formats of RFC 1928

  datatype Address = IPv4(bytes: seq<byte>) | Domain(bytes: seq<byte>) | IPv6(bytes: seq<byte>)

  predicate ValidAddress(a: Address) {
    match a
    case IPv4(bytes) => |bytes| == 4
    case Domain(bytes) => |bytes| <= 255
    case IPv6(bytes) => |bytes| == 16
  }

  function AddressBytes(a: Address): seq<byte>
    requires ValidAddress(a)
  {
    match a
    case IPv4(bytes) => [1] + bytes
    case Domain(bytes) => [3, |bytes| as byte] + bytes
    case IPv6(bytes) => [4] + bytes
  }

  /** A port, in network order. */
  function PortBytes(port: nat): seq<byte>
    requires port < 0x1_0000
  {
    [(port / 256) as byte, (port % 256) as byte]
  }

  /** Section 4: how a server reads a CONNECT request. */
  function ReadRequest(s: seq<byte>): Option<(Address, nat)> {
    if |s| < 5 || s[0] != 5 || s[1] != 1 || s[2] != 0 then None
    else
      var fixed := if s[3] == 1 then 4 else if s[3] == 4 then 16 else 0;
      var start := if s[3] == 3 then 5 else 4;
      var length := if s[3] == 3 then s[4] as nat else fixed;
      if s[3] !in {1, 3, 4} || |s| != start + length + 2 then None
      else
        var bytes := s[start..start + length];
        var port := s[|s| - 2] as nat * 256 + s[|s| - 1] as nat;
        Some((if s[3] == 1 then IPv4(bytes) else if s[3] == 3 then Domain(bytes) else IPv6(bytes), port))
  }

  /** Section 6: a successful reply, naming the bound address and port. */
  function Reply(a: Address, port: nat): seq<byte>
    requires ValidAddress(a) && port < 0x1_0000
  {
    [5, 0, 0] + AddressBytes(a) + PortBytes(port)
  }

  // ---------------------------------------------------------- what is read

  /** The length of an address after its type byte, as discardSOCKSAddress
      takes it, with the length byte of a name. */
  function AddressLength(kind: byte, rest: seq<byte>): Option<nat> {
    if kind == 1 then Some(4)
    else if kind == 4 then Some(16)
    else if kind == 3 && |rest| > 0 then Some(1 + rest[0] as nat)
    else None
  }

  /** The number of bytes a successful reply takes up at the front of a stream. */
  function ReplyLength(s: seq<byte>): Option<nat> {
    if |s| < 4 || s[0] != 5 || s[1] != 0 || s[2] != 0 then None
    else
      var address := AddressLength(s[3], s[4..]);
      if address.None? || |s| < 4 + address.value + 2 then None else Some(4 + address.value + 2)
  }

  /** Every reply of section 6, whatever follows it, is recognised whole. */
  lemma ReplyIsRecognised(a: Address, port: nat, rest: seq<byte>)
    requires ValidAddress(a) && port < 0x1_0000
    ensures ReplyLength(Reply(a, port) + rest) == Some(|Reply(a, port)|)
  {
    var s := Reply(a, port) + rest;
    assert s[0] == 5 && s[1] == 0 && s[2] == 0 && s[3] == AddressBytes(a)[0];
    if a.Domain? {
      assert s[4] == AddressBytes(a)[1] == |a.bytes| as byte;
      assert s[4..][0] == s[4];
    }
  }

  /** And nothing else is: what is recognised is a reply. */
  lemma RecognisedIsReply(s: seq<byte>) returns (a: Address, port: nat)
    requires ReplyLength(s).Some?
    ensures ValidAddress(a) && port < 0x1_0000 && ReplyLength(s).value <= |s|
    ensures s[..ReplyLength(s).value] == Reply(a, port)
  {
    var n := ReplyLength(s).value;
    a := AddressIn(s, n);
    port := s[n - 2] as nat * 256 + s[n - 1] as nat;
    PortSplits(s[n - 2] as nat, s[n - 1] as nat);
    assert PortBytes(port) == s[n - 2..n];
    assert s[..3] == [5, 0, 0];
    assert s[..n] == s[..3] + s[3..n - 2] + s[n - 2..n];
  }

  lemma AddressIn(s: seq<byte>, n: nat) returns (a: Address)
    requires ReplyLength(s) == Some(n)
    ensures 6 <= n <= |s| && ValidAddress(a) && AddressBytes(a) == s[3..n - 2]
  {
    if s[3] == 1 {
      a := IPv4(s[4..n - 2]);
    } else if s[3] == 4 {
      a := IPv6(s[4..n - 2]);
    } else {
      assert s[4..][0] == s[4];
      a := Domain(s[5..n - 2]);
      assert s[4..n - 2] == [s[4]] + s[5..n - 2];
    }
    assert s[3..n - 2] == [s[3]] + s[4..n - 2];
  }

  lemma PortSplits(high: nat, low: nat)
    requires low < 256
    ensures (high * 256 + low) / 256 == high && (high * 256 + low) % 256 == low
  {
  }

  // -------------------------------------------------------- the connection

  const GREETING: seq<byte> := [5, 1, 0]

  /** Section 3: the methods a client's greeting offers to a server. */
  function ReadGreeting(s: seq<byte>): Option<seq<byte>> {
    if |s| < 2 || s[0] != 5 || s[1] == 0 || |s| != 2 + s[1] as nat then None else Some(s[2..])
  }

  /** The greeting offers one method: no authentication. */
  lemma GreetingOffersNoAuthentication(s: seq<byte>)
    ensures ReadGreeting(s) == Some([0]) <==> s == GREETING
  {
    if ReadGreeting(s) == Some([0]) {
      assert |s| == 3 && s[2..] == [s[2]];
      assert s == [s[0], s[1], s[2]];
    }
    assert GREETING[2..] == [0];
  }

  function RequestBytes(host: seq<byte>, port: nat): seq<byte>
    requires |host| <= 255 && port < 0x1_0000
  {
    [5, 1, 0, 3, |host| as byte] + host + PortBytes(port)
  }

  /** The request carries the host and the port without loss. */
  lemma RequestNamesTarget(host: seq<byte>, port: nat)
    requires |host| <= 255 && port < 0x1_0000
    ensures ReadRequest(RequestBytes(host, port)) == Some((Domain(host), port))
  {
    var s := RequestBytes(host, port);
    assert s[4] as nat == |host| && s[5..5 + |host|] == host;
    assert s[|s| - 2..] == PortBytes(port);
    assert s[|s| - 2] == s[|s| - 2..][0] && s[|s| - 1] == s[|s| - 2..][1];
  }

  class Connection {
    /** The bytes the peer has sent and will send, and how many were read. */
    const input: seq<byte>
    var read: nat
    var output: seq<byte>
    var failed: bool

    ghost predicate Valid()
      reads this
    {
      read <= |input|
    }

    ghost function Remaining(): seq<byte>
      reads this
      requires Valid()
    {
      input[read..]
    }

    constructor (bytes: seq<byte>)
      ensures Valid() && Remaining() == bytes && output == [] && !failed
    {
      input, read, output, failed := bytes, 0, [], false;
    }

    method Write(bytes: seq<byte>) returns (ok: bool)
      requires Valid()
      modifies this`output, this`failed
      ensures ok ==> output == old(output) + bytes && failed == old(failed)
      ensures !ok ==> failed && old(output) <= output <= old(output) + bytes
    {
      ok := *;
      if ok { output := output + bytes; } else { failed := true; }
    }

    /** io.ReadFull, and io.CopyN to nowhere */
    method ReadFull(n: nat) returns (ok: bool, bytes: seq<byte>)
      requires Valid()
      modifies this`read
      ensures Valid()
      ensures ok <==> n <= |old(Remaining())|
      ensures ok ==> bytes == old(Remaining())[..n] && Remaining() == old(Remaining())[n..]
    {
      if read + n > |input| {
        read := |input|;
        return false, [];
      }
      bytes := input[read..read + n];
      read := read + n;
      assert input[old(read)..][..n] == bytes;
      return true, bytes;
    }

    method DiscardSOCKSAddress(kind: byte) returns (ok: bool)
      requires Valid()
      modifies this`read
      ensures Valid()
      ensures var s := old(Remaining()); var length := AddressLength(kind, s);
              && (ok <==> length.Some? && |s| >= length.value + 2)
              && (ok ==> Remaining() == s[length.value + 2..])
    {
      var length: nat := 0;
      ghost var s := Remaining();
      if kind == 1 {
        length := 4;
      } else if kind == 4 {
        length := 16;
      } else if kind == 3 {
        var lengthByte;
        ok, lengthByte := ReadFull(1);
        if !ok { return false; }
        length := lengthByte[0] as nat;
      } else {
        return false;
      }
      var discarded;
      ok, discarded := ReadFull(length + 2);
    }

    /** Unless a write fails or the target cannot be sent, the handshake
        succeeds exactly on an accepted method and a successful reply, and the
        first byte left to relay is the one behind that reply. */
    method DialSOCKS(host: seq<byte>, port: string) returns (ok: bool)
      requires Valid()
      modifies this
      ensures Valid()
      ensures old(output) <= output
      ensures ok ==> |host| <= 255 && Decimal.ParseUint16(port).Some?
                     && output == old(output) + [5, 1, 0] + RequestBytes(host, Decimal.ParseUint16(port).value)
      ensures ok ==> Answers(old(Remaining()), Remaining())
      ensures !ok && |host| <= 255 && Decimal.ParseUint16(port).Some? && !failed ==>
                forall rest :: !Answers(old(Remaining()), rest)
      ensures |host| > 255 || Decimal.ParseUint16(port).None? ==> !ok && output <= old(output) + [5, 1, 0]
    {
      failed := false;
      ghost var s := Remaining();
      ok := Write(GREETING);
      if !ok { return false; }
      var response;
      ok, response := ReadFull(2);
      if !ok || response[0] != 5 || response[1] != 0 {
        RejectedMethod(s);
        return false;
      }
      if |host| > 255 { return false; }
      var number := Decimal.ParseUint16(port);
      if number.None? { return false; }
      ok := Write(RequestBytes(host, number.value));
      if !ok { return false; }
      ghost var t := Remaining();
      var header;
      ok, header := ReadFull(4);
      if !ok || header[0] != 5 || header[1] != 0 || header[2] != 0 {
        AnsweredAt(s);
        return false;
      }
      ok := DiscardSOCKSAddress(header[3]);
      AnsweredAt(s);
      if ok { assert Remaining() == t[ReplyLength(t).value..]; }
    }
  }

  /** The stream accepts the method, then holds a successful reply, then `rest`. */
  ghost predicate Answers(s: seq<byte>, rest: seq<byte>) {
    exists a: Address, port: nat :: AnswersBy(s, a, port, rest)
  }

  ghost predicate AnswersBy(s: seq<byte>, a: Address, port: nat, rest: seq<byte>) {
    ValidAddress(a) && port < 0x1_0000 && s == [5, 0] + Reply(a, port) + rest
  }

  lemma RejectedMethod(s: seq<byte>)
    requires |s| < 2 || s[0] != 5 || s[1] != 0
    ensures forall rest :: !Answers(s, rest)
  {
    forall a: Address, port: nat, rest ensures !AnswersBy(s, a, port, rest) {
      if ValidAddress(a) && port < 0x1_0000 {
        var t := [5, 0] + Reply(a, port) + rest;
        assert t[0] == 5 && t[1] == 0;
      }
    }
  }

  /** An answer is an accepted method and a recognised reply, then its rest. */
  lemma AnswerIsRecognised(t: seq<byte>, a: Address, port: nat, rest: seq<byte>)
    requires AnswersBy([5, 0] + t, a, port, rest)
    ensures ReplyLength(t).Some? && rest == t[ReplyLength(t).value..]
  {
    assert ([5, 0] + t)[2..] == t;
    assert ([5, 0] + Reply(a, port) + rest)[2..] == Reply(a, port) + rest;
    ReplyIsRecognised(a, port, rest);
  }

  lemma RecognisedAnswers(t: seq<byte>)
    requires ReplyLength(t).Some?
    ensures ReplyLength(t).value <= |t| && Answers([5, 0] + t, t[ReplyLength(t).value..])
  {
    var a, port := RecognisedIsReply(t);
    var rest := t[ReplyLength(t).value..];
    assert [5, 0] + t == [5, 0] + Reply(a, port) + rest;
    assert AnswersBy([5, 0] + t, a, port, rest);
  }

  lemma AnsweredAt(s: seq<byte>)
    requires |s| >= 2 && s[0] == 5 && s[1] == 0
    ensures var t := s[2..];
            forall rest :: Answers(s, rest) <==> ReplyLength(t).Some? && rest == t[ReplyLength(t).value..]
  {
    var t := s[2..];
    assert s == [5, 0] + t;
    forall a: Address, port: nat, rest | AnswersBy(s, a, port, rest)
      ensures ReplyLength(t).Some? && rest == t[ReplyLength(t).value..]
    {
      AnswerIsRecognised(t, a, port, rest);
    }
    if ReplyLength(t).Some? { RecognisedAnswers(t); }
  }
}
