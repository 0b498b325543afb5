/** Length-prefixed strings on the wire (src/mqtt/Packet.cpp:188-241). */
module Strings {
  import opened MqttTypes

  const MAX_STRING: nat := 65535

  /** How a string is appended: an empty one writes nothing at all, not even its length. */
  function Utf8Bytes(s: seq<byte>): seq<byte> {
    if s == [] then [] else BigEndian16(|s|) + s
  }

  /** Section 1.5.3 of MQTT 3.1.1: two length bytes, then that many bytes. The string and what follows it. */
  function TakeString(s: seq<byte>): Option<(seq<byte>, seq<byte>)> {
    if |s| < 2 then None
    else
      var n := FromBigEndian16(s[0], s[1]);
      if |s| < 2 + n then None else Some((s[2..2 + n], s[2 + n..]))
  }

  lemma Utf8Length(s: seq<byte>)
    ensures |Utf8Bytes(s)| == if s == [] then 0 else |s| + 2
  {
  }

  function TakeUInt16(s: seq<byte>): Option<(uint16, seq<byte>)> {
    if |s| < 2 then None else Some((FromBigEndian16(s[0], s[1]), s[2..]))
  }

  lemma BigEndianRoundTrip(n: nat)
    requires n <= MAX_STRING
    ensures FromBigEndian16(BigEndian16(n)[0], BigEndian16(n)[1]) == n
  {
    assert n / 256 % 256 == n / 256;
  }

  /** A string that is not empty and not too long is read back, whatever follows. */
  lemma StringRoundTrip(s: seq<byte>, rest: seq<byte>)
    requires 1 <= |s| <= MAX_STRING
    ensures TakeString(Utf8Bytes(s) + rest) == Some((s, rest))
  {
    BigEndianRoundTrip(|s|);
    var all := Utf8Bytes(s) + rest;
    assert all[2..2 + |s|] == s && all[2 + |s|..] == rest;
  }

  lemma UInt16RoundTrip(n: nat, rest: seq<byte>)
    requires n <= MAX_STRING
    ensures TakeUInt16(BigEndian16(n) + rest) == Some((n, rest))
  {
    BigEndianRoundTrip(n);
    assert (BigEndian16(n) + rest)[2..] == rest;
  }

  method AppendUInt16ToBuffer(buf: seq<byte>, value: uint16) returns (out: seq<byte>)
    ensures out == buf + BigEndian16(value)
  {
    var first := value / 256;
    var second := value % 256;
    out := buf + [first];
    out := out + [second];
  }

  method AppendUtf8StringToBuffer(buf: seq<byte>, s: seq<byte>) returns (out: seq<byte>)
    ensures out == buf + Utf8Bytes(s)
  {
    out := buf;
    var length := |s|;
    if length > 0 {
      out := out + [length / 256 % 256];
      out := out + [length % 256];
      out := out + s;
    }
  }

  method ReadUInt16FromBuffer(buf: seq<byte>, index: nat) returns (value: uint16, next: nat)
    requires index + 2 <= |buf|
    ensures next == index + 2 && TakeUInt16(buf[index..]) == Some((value, buf[next..]))
  {
    var first: int, second: int := buf[index], buf[index + 1];
    value := second + 256 * first;
    next := index + 2;
  }

  /** Reads a string of at least one byte; an empty or truncated one yields nothing. */
  method ReadUtf8StringFromBuffer(buf: seq<byte>, index: nat) returns (s: Option<seq<byte>>, next: nat)
    requires index + 2 <= |buf|
    ensures index + 2 <= next <= |buf|
    ensures s.Some? ==> s.value != [] && TakeString(buf[index..]) == Some((s.value, buf[next..]))
    ensures s.None? ==> TakeString(buf[index..]).None? || TakeString(buf[index..]).value.0 == []
  {
    var first: int, second: int := buf[index], buf[index + 1];
    var len := second + 256 * first;
    next := index + 2;
    if 1 <= len && len <= |buf| - next {
      s := Some(buf[next..next + len]);
      assert buf[index..][2..2 + len] == s.value && buf[index..][2 + len..] == buf[next + len..];
      next := next + len;
    } else {
      s := None;
      assert FromBigEndian16(buf[index..][0], buf[index..][1]) == len;
      assert buf[index..][2..2] == [];
    }
  }
}
