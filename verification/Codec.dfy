/** The wire format of fproxy-rs/src/protocol.rs, the same over UDP and TCP:
    8 bytes session id, 4 bytes sequence number, both big-endian, then the payload. */
module Codec {
  import opened Bounded

  const HEADER_SIZE: nat := 12

  function Pow256(width: nat): (p: nat)
    ensures p > 0
  {
    if width == 0 then 1 else 256 * Pow256(width - 1)
  }

  /** `to_be_bytes` of an integer of `width` bytes. */
  function ToBe(n: nat, width: nat): (b: Bytes)
    ensures |b| == width
  {
    if width == 0 then [] else ToBe(n / 256, width - 1) + [n % 256]
  }

  /** `from_be_bytes`. */
  function FromBe(b: Bytes): nat {
    if b == [] then 0 else 256 * FromBe(b[..|b| - 1]) + b[|b| - 1]
  }

  lemma {:induction false} FromToBe(n: nat, width: nat)
    requires n < Pow256(width)
    ensures FromBe(ToBe(n, width)) == n
  {
    if width > 0 {
      var b := ToBe(n, width);
      assert b[..width - 1] == ToBe(n / 256, width - 1) && b[width - 1] == n % 256;
      assert n / 256 < Pow256(width - 1);
      FromToBe(n / 256, width - 1);
      assert n == 256 * (n / 256) + n % 256;
    }
  }

  lemma {:induction false} ToFromBe(b: Bytes)
    ensures FromBe(b) < Pow256(|b|)
    ensures ToBe(FromBe(b), |b|) == b
  {
    if b != [] {
      ToFromBe(b[..|b| - 1]);
      assert FromBe(b) / 256 == FromBe(b[..|b| - 1]) && FromBe(b) % 256 == b[|b| - 1];
    }
  }

  lemma Widths()
    ensures Pow256(2) == TWO_16 && Pow256(4) == TWO_32 && Pow256(8) == TWO_64
  {
    assert Pow256(4) == TWO_32;
    assert Pow256(6) == 0x1_0000_0000_0000;
  }

  datatype Decoded = PacketTooShort | Packet(id: U64, seqNo: U32, payload: Bytes)

  function Encode(id: U64, seqNo: U32, payload: Bytes): (packet: Bytes)
    ensures |packet| == HEADER_SIZE + |payload|
  {
    ToBe(id, 8) + ToBe(seqNo, 4) + payload
  }

  function Decode(packet: Bytes): Decoded {
    if |packet| < HEADER_SIZE then PacketTooShort
    else
      ToFromBe(packet[..8]);
      ToFromBe(packet[8..12]);
      Widths();
      Packet(FromBe(packet[..8]), FromBe(packet[8..12]), packet[HEADER_SIZE..])
  }

  lemma {:induction false} BigEndian(n: nat, width: nat, i: nat)
    requires i < width
    ensures ToBe(n, width)[i] == (n / Pow256(width - 1 - i)) % 256
  {
    if i < width - 1 {
      BigEndian(n / 256, width - 1, i);
      DivDiv(n, Pow256(width - 2 - i));
    }
  }

  lemma DivDiv(n: nat, m: nat)
    requires m > 0
    ensures (n / 256) / m == n / (256 * m)
  {
    var q, r := (n / 256) / m, (n / 256) % m;
    assert n / 256 == m * q + r;
    assert n == 256 * (m * q + r) + n % 256;
    var rest := 256 * r + n % 256;
    assert n == 256 * m * q + rest && 0 <= rest < 256 * m;
    Quotient(n, 256 * m, q, rest);
  }

  lemma Quotient(n: nat, m: nat, q: nat, r: nat)
    requires r < m && n == m * q + r
    ensures n / m == q
  {
    var d := n / m;
    assert n == m * d + n % m;
    Multiple(m, q - d);
    assert m * (q - d) == m * q - m * d;
  }

  lemma Multiple(m: nat, k: int)
    requires m > 0
    ensures k >= 1 ==> m * k >= m
    ensures k <= -1 ==> m * k + m <= 0
  {
  }

  /** The layout: id, then number, each with its most significant byte first, then the payload. */
  lemma Layout(id: U64, seqNo: U32, payload: Bytes, i: nat)
    requires i < HEADER_SIZE + |payload|
    ensures Encode(id, seqNo, payload)[i] ==
            if i < 8 then (id / Pow256(7 - i)) % 256
            else if i < 12 then (seqNo / Pow256(11 - i)) % 256
            else payload[i - 12]
  {
    if i < 8 {
      BigEndian(id, 8, i);
    } else if i < 12 {
      BigEndian(seqNo, 4, i - 8);
    }
  }

  /** The receiver recovers exactly what the sender encoded. */
  lemma DecodeEncode(id: U64, seqNo: U32, payload: Bytes)
    ensures Decode(Encode(id, seqNo, payload)) == Packet(id, seqNo, payload)
  {
    var p := Encode(id, seqNo, payload);
    Widths();
    FromToBe(id, 8);
    FromToBe(seqNo, 4);
    assert p[..8] == ToBe(id, 8) && p[8..12] == ToBe(seqNo, 4) && p[12..] == payload;
  }

  /** Decoding fails on the short packets only, and loses nothing otherwise. */
  lemma EncodeDecode(packet: Bytes)
    ensures Decode(packet).PacketTooShort? <==> |packet| < HEADER_SIZE
    ensures Decode(packet).Packet? ==>
              var d := Decode(packet); Encode(d.id, d.seqNo, d.payload) == packet
  {
    if |packet| >= HEADER_SIZE {
      ToFromBe(packet[..8]);
      ToFromBe(packet[8..12]);
    }
  }

  method EncodePacket(id: U64, seqNo: U32, payload: Bytes) returns (packet: Bytes)
    ensures packet == Encode(id, seqNo, payload)
    ensures Decode(packet) == Packet(id, seqNo, payload)
  {
    packet := [];
    packet := packet + ToBe(id, 8);
    packet := packet + ToBe(seqNo, 4);
    packet := packet + payload;
    DecodeEncode(id, seqNo, payload);
  }
}
