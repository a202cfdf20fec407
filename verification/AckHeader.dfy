/** Eight-bit sequence numbers and the acknowledgement header:
    `seq_bit_index`, `seq_is_more_recent`, `seq_was_acked` and the bitfield
    built by `send_packet` in src/shared/connection.rs. */
module AckHeader {
  import opened Bytes

  const MAX_ACK_BITS := 32

  /** Packet numbers run from 0 up to this number and then start over. */
  const MAX_SEQ_NUMBER := 256

  // ----- bits of a word, from the least significant one -----

  predicate TestBit(word: nat, bit: nat) {
    if bit == 0 then word % 2 == 1 else TestBit(word / 2, bit - 1)
  }

  function SetBit(word: nat, bit: nat): nat {
    if bit == 0 then (if word % 2 == 1 then word else word + 1) else 2 * SetBit(word / 2, bit - 1) + word % 2
  }

  lemma {:induction false} TestAfterSet(word: nat, bit: nat, other: nat)
    ensures TestBit(SetBit(word, bit), other) <==> other == bit || TestBit(word, other)
  {
    if bit > 0 && other > 0 {
      assert SetBit(word, bit) / 2 == SetBit(word / 2, bit - 1);
      TestAfterSet(word / 2, bit - 1, other - 1);
    } else if bit == 0 && other > 0 {
      assert SetBit(word, bit) / 2 == word / 2;
    }
  }

  lemma PowDoubles(width: nat)
    requires width > 0
    ensures Pow2(width) == 2 * Pow2(width - 1)
  {
  }

  lemma SetBitStep(word: nat, bit: nat)
    requires bit > 0
    ensures SetBit(word, bit) == 2 * SetBit(word / 2, bit - 1) + word % 2
  {
  }

  lemma {:induction false} SetBitBound(word: nat, bit: nat, width: nat)
    requires word < Pow2(width) && bit < width
    ensures SetBit(word, bit) < Pow2(width)
  {
    PowDoubles(width);
    if bit > 0 {
      hide SetBit, Pow2;
      SetBitBound(word / 2, bit - 1, width - 1);
      SetBitStep(word, bit);
    }
  }

  lemma {:induction false} NoBitOfZero(bit: nat)
    ensures !TestBit(0, bit)
  {
    if bit > 0 {
      NoBitOfZero(bit - 1);
    }
  }

  lemma WordWidth()
    ensures Pow2(32) == 0x1_0000_0000
  {
    assert Pow2(8) == 0x100;
    assert Pow2(16) == 0x1_0000;
    assert Pow2(24) == 0x100_0000;
  }

  /** A word of `n` pairs of bits, each of them 01. */
  function Alternate(n: nat): nat {
    if n == 0 then 0 else 4 * Alternate(n - 1) + 1
  }

  /** Every second bit is set. */
  lemma {:induction false} AlternateBits(n: nat, bit: nat)
    ensures TestBit(Alternate(n), bit) <==> bit % 2 == 0 && bit < 2 * n
  {
    if n == 0 {
      NoBitOfZero(bit);
    } else if bit > 1 {
      assert Alternate(n) / 2 / 2 == Alternate(n - 1);
      AlternateBits(n - 1, bit - 2);
    } else {
      assert Alternate(n) / 2 == 2 * Alternate(n - 1);
    }
  }

  lemma AlternateWord()
    ensures Alternate(16) == 0x5555_5555
  {
    assert Alternate(4) == 0x55;
    assert Alternate(8) == 0x5555;
    assert Alternate(12) == 0x55_5555;
  }

  // ----- sequence numbers -----

  /** How far `num` lies behind `ack`, around the circle of 256 numbers. */
  function Distance(ack: Byte, num: Byte): nat {
    (ack as int - num as int) % MAX_SEQ_NUMBER
  }

  function SeqBitIndex(num: Byte, ack: Byte): nat
    requires num != ack
  {
    if num > ack then ack + (MAX_SEQ_NUMBER - 1 - num) else ack - 1 - num
  }

  predicate SeqIsMoreRecent(a: Byte, b: Byte) {
    (a > b && a - b <= MAX_SEQ_NUMBER / 2) || (b > a && b - a > MAX_SEQ_NUMBER / 2)
  }

  predicate SeqWasAcked(num: Byte, ack: Byte, field: U32) {
    num == ack || (var bit := SeqBitIndex(num, ack); bit < MAX_ACK_BITS && TestBit(field, bit))
  }

  lemma DivideTwice(word: nat, p: nat)
    requires p > 0
    ensures word / (2 * p) == word / 2 / p
  {
    var half := word / 2;
    var q, rest := half / p, 2 * (half % p) + word % 2;
    assert word == (2 * p) * q + rest && 0 <= rest < 2 * p;
    QuotientIs(word, 2 * p, q, rest);
  }

  lemma QuotientIs(a: nat, b: nat, q: nat, rest: nat)
    requires a == b * q + rest && rest < b
    ensures a / b == q
  {
    var d := a / b - q;
    assert b * d == rest - a % b;
    assert d == 0 || b * d >= b || b * d + b <= 0;
  }

  lemma {:induction false} TestBitIs(word: nat, bit: nat)
    ensures TestBit(word, bit) <==> word / Pow2(bit) % 2 == 1
  {
    if bit > 0 {
      TestBitIs(word / 2, bit - 1);
      DivideTwice(word, Pow2(bit - 1));
    }
  }

  /** A header acknowledges its number, and the one `d` behind it, for `d` from 1
      to 32, exactly if bit `d - 1` of its field is set. */
  lemma AckedIffBit(num: Byte, ack: Byte, field: U32)
    ensures
      var d := (ack - num) % 256;
      SeqWasAcked(num, ack, field) <==> d == 0 || (d <= 32 && field / Pow2(d - 1) % 2 == 1)
  {
    if num != ack {
      BitIndexIsDistance(num, ack);
      TestBitIs(field, SeqBitIndex(num, ack));
    }
  }

  /** Bit 0 stands for the packet just before the acknowledged one, and so on backwards. */
  lemma BitIndexIsDistance(num: Byte, ack: Byte)
    requires num != ack
    ensures SeqBitIndex(num, ack) == Distance(ack, num) - 1
  {
  }

  // ----- the bitfield -----

  function AckBit(field: U32, num: Byte, ack: Byte): U32 {
    WordWidth();
    if num == ack || SeqBitIndex(num, ack) >= MAX_ACK_BITS then field
    else
      SetBitBound(field, SeqBitIndex(num, ack), 32);
      SetBit(field, SeqBitIndex(num, ack))
  }

  function AckField(queue: seq<Byte>, ack: Byte): U32 {
    if queue == [] then 0 else AckBit(AckField(queue[..|queue| - 1], ack), queue[|queue| - 1], ack)
  }

  /** The loop of `send_packet` over the recently received sequence numbers. */
  method BuildAckField(queue: seq<Byte>, ack: Byte) returns (field: U32)
    ensures field == AckField(queue, ack)
  {
    field := 0;
    for k := 0 to |queue|
      invariant field == AckField(queue[..k], ack)
    {
      assert queue[..k + 1][..k] == queue[..k];
      WordWidth();
      if queue[k] != ack {
        var bit := SeqBitIndex(queue[k], ack);
        if bit < MAX_ACK_BITS {
          SetBitBound(field, bit, 32);
          field := SetBit(field, bit);
        }
      }
    }
    assert queue[..|queue|] == queue;
  }

  /** A header acknowledges exactly its ack number and the queued numbers at
      wrapping distance 1 to 32 behind it. */
  lemma {:induction false} AckFieldExact(queue: seq<Byte>, ack: Byte, num: Byte)
    ensures SeqWasAcked(num, ack, AckField(queue, ack)) <==>
            num == ack || (num in queue && 1 <= Distance(ack, num) <= MAX_ACK_BITS)
  {
    if num != ack {
      BitIndexIsDistance(num, ack);
      var bit := SeqBitIndex(num, ack);
      if queue == [] {
        NoBitOfZero(bit);
      } else {
        var init, last := queue[..|queue| - 1], queue[|queue| - 1];
        AckFieldExact(init, ack, num);
        assert num in queue <==> num in init || num == last;
        if last != ack && SeqBitIndex(last, ack) < MAX_ACK_BITS {
          TestAfterSet(AckField(init, ack), SeqBitIndex(last, ack), bit);
        }
      }
    }
  }

  /** What the closure bytes acknowledge if they are read as a header: 128 and the
      numbers at an odd distance of at most 31 behind it. */
  lemma ClosureAcks(num: Byte)
    ensures SeqWasAcked(num, 128, 0x5555_5555) <==>
            num == 128 || (Distance(128, num) % 2 == 1 && Distance(128, num) < MAX_ACK_BITS)
  {
    if num != 128 {
      BitIndexIsDistance(num, 128);
      AlternateWord();
      AlternateBits(16, SeqBitIndex(num, 128));
    }
  }

  /** The header is as exact after its trip through four bytes. */
  lemma AckHeaderExact(queue: seq<Byte>, ack: Byte, num: Byte)
    ensures var b := BigEndian(AckField(queue, ack));
            SeqWasAcked(num, ack, FromBigEndian(b[0], b[1], b[2], b[3])) <==>
            num == ack || (num in queue && 1 <= Distance(ack, num) <= MAX_ACK_BITS)
  {
    BigEndianRoundTrip(AckField(queue, ack));
    AckFieldExact(queue, ack, num);
  }

  // ----- bytes and packet numbers -----

  /** The byte that stands for the `n`-th packet. */
  function Seq(n: nat): Byte {
    n % MAX_SEQ_NUMBER
  }

  lemma SeqNext(n: nat)
    ensures Seq(n + 1) == if Seq(n) + 1 == MAX_SEQ_NUMBER then 0 else Seq(n) + 1
  {
  }

  /** Within 127 numbers of each other the wrapping comparison is the true one. */
  lemma MoreRecentIsNewer(n: nat, newest: nat)
    requires -128 < n - newest < 128
    ensures SeqIsMoreRecent(Seq(n), Seq(newest)) <==> n > newest
  {
  }

  lemma DistanceOfNumbers(ack: nat, n: nat)
    ensures Distance(Seq(ack), Seq(n)) == (ack - n) % MAX_SEQ_NUMBER
  {
  }

  /** Two numbers less than 256 apart share a byte only if they are the same. */
  lemma SeqInjective(a: nat, b: nat)
    requires -MAX_SEQ_NUMBER < a - b < MAX_SEQ_NUMBER
    ensures Seq(a) == Seq(b) <==> a == b
  {
  }
}
