/**
 * The packet capture file: a global header followed by one record per packet,
 * as in sections 4 and 5 of draft-ietf-opsawg-pcap, in the byte order of the
 * machine that wrote it (little-endian).
 */
module Pcap {
  import opened Layout

  type Word = x: int | 0 <= x < 0x1_0000_0000

  datatype Option<T> = None | Some(value: T)

  function Le32(x: Word): (r: seq<Byte>)
    ensures |r| == 4
  {
    [x % 256, x / 256 % 256, x / 65536 % 256, x / 16777216]
  }

  function Read32(s: seq<Byte>): Word
    requires |s| >= 4
  {
    var a: int, b: int, c: int, d: int := s[0], s[1], s[2], s[3];
    a + 256 * b + 65536 * c + 16777216 * d
  }

  // The four digits of a number to the base 256.
  lemma Digits(x: Word)
    ensures x % 256 + 256 * (x / 256 % 256) + 65536 * (x / 65536 % 256) + 16777216 * (x / 16777216) == x
  {
    assert x / 256 == 256 * (x / 65536) + x / 256 % 256;
    assert x / 65536 == 256 * (x / 16777216) + x / 65536 % 256;
  }

  lemma Read32Le32(x: Word, rest: seq<Byte>)
    ensures Read32(Le32(x) + rest) == x
  {
    var r, s := Le32(x), Le32(x) + rest;
    assert s[0] == r[0] && s[1] == r[1] && s[2] == r[2] && s[3] == r[3];
    Digits(x);
  }

  // magic, version 2.4, zone 0, sigfigs 0, snap length 65535, link type 1
  const HEADER: seq<Byte> :=
    [0xd4, 0xc3, 0xb2, 0xa1, 2, 0, 4, 0, 0, 0, 0, 0, 0, 0, 0, 0, 0xff, 0xff, 0, 0, 1, 0, 0, 0]

  function Record(packet: seq<Byte>): seq<Byte>
    requires |packet| < 0x1_0000_0000
  {
    Le32(0) + Le32(0) + Le32(|packet|) + Le32(|packet|) + packet
  }

  predicate Small(packets: seq<seq<Byte>>) {
    forall i :: 0 <= i < |packets| ==> |packets[i]| < 0x1_0000_0000
  }

  function Records(packets: seq<seq<Byte>>): seq<Byte>
    requires Small(packets)
  {
    if packets == [] then [] else Record(packets[0]) + Records(packets[1..])
  }

  // What a reader of the format gets: the snap length, the link type and the packets.
  datatype Trace = Trace(snapLength: nat, linkType: nat, packets: seq<seq<Byte>>)

  // A file of Ethernet frames, none of them longer than 65535 bytes.
  function Ethernet(packets: seq<seq<Byte>>): Option<Trace> { Some(Trace(65535, 1, packets)) }

  // A reader of the format: checks the header, then takes record after record.
  function ParseRecords(s: seq<Byte>): Option<seq<seq<Byte>>>
    decreases |s|
  {
    if s == [] then Some([])
    else if |s| < 16 then None
    else
      var n := Read32(s[8..]);
      if n > Read32(s[12..]) || |s| < 16 + n then None
      else
        match ParseRecords(s[16 + n..])
        case None => None
        case Some(rest) => Some([s[16..16 + n]] + rest)
  }

  function Parse(s: seq<Byte>): Option<Trace> {
    if |s| < 24 || Read32(s) != 0xa1b2c3d4 || s[4..8] != [2, 0, 4, 0] then None
    else
      match ParseRecords(s[24..])
      case None => None
      case Some(packets) => Some(Trace(Read32(s[16..]), Read32(s[20..]), packets))
  }

  // A record has no time, and the packet was captured whole.
  lemma ParseRecord(packet: seq<Byte>, rest: seq<Byte>)
    requires |packet| < 0x1_0000_0000
    ensures var s := Record(packet) + rest; var n := |packet|;
            |s| >= 16 + n && Read32(s) == 0 && Read32(s[4..]) == 0 && Read32(s[8..]) == n && Read32(s[12..]) == n
            && s[16..16 + n] == packet && s[16 + n..] == rest
  {
    var s := Record(packet) + rest;
    var n: Word := |packet|;
    assert s[8..] == Le32(n) + (Le32(n) + packet + rest);
    assert s[12..] == Le32(n) + (packet + rest);
    Read32Le32(n, Le32(n) + packet + rest);
    Read32Le32(n, packet + rest);
  }

  lemma {:induction false} ParseRecordsOf(packets: seq<seq<Byte>>)
    requires Small(packets)
    ensures ParseRecords(Records(packets)) == Some(packets)
  {
    if packets != [] {
      ParseRecordsOf(packets[1..]);
      ParseRecord(packets[0], Records(packets[1..]));
      assert [packets[0]] + packets[1..] == packets;
    }
  }

  lemma HeaderRead(rest: seq<Byte>)
    ensures var s := HEADER + rest;
            && Read32(s) == 0xa1b2c3d4 && s[4..8] == [2, 0, 4, 0]
            && Read32(s[16..]) == 65535 && Read32(s[20..]) == 1
  {
    var s := HEADER + rest;
    assert s[4..8] == [2, 0, 4, 0];
    assert s[16..20] == [0xff, 0xff, 0, 0] && s[20..24] == [1, 0, 0, 0];
  }

  lemma ParseOf(packets: seq<seq<Byte>>)
    requires Small(packets)
    ensures Parse(HEADER + Records(packets)) == Ethernet(packets)
  {
    var s := HEADER + Records(packets);
    HeaderRead(Records(packets));
    assert s[24..] == Records(packets);
    ParseRecordsOf(packets);
  }

  lemma Associate(x: seq<Byte>, y: seq<Byte>, z: seq<Byte>)
    ensures x + (y + z) == (x + y) + z
  {
  }

  lemma {:induction false} RecordsAppend(a: seq<seq<Byte>>, b: seq<seq<Byte>>)
    requires Small(a) && Small(b)
    ensures Small(a + b) && Records(a + b) == Records(a) + Records(b)
  {
    if a == [] {
      assert a + b == b;
    } else {
      RecordsAppend(a[1..], b);
      assert (a + b)[1..] == a[1..] + b && (a + b)[0] == a[0];
      Associate(Record(a[0]), Records(a[1..]), Records(b));
    }
  }
}
