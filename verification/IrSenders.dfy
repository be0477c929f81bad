/** The senders of IRremote2 that have a decoder: each prints a word as a row of marks and spaces. */
module IrSenders {
  import opened Arithmetic
  import opened IrSignal
  import opened IrDecoders
  import Sequences

  const TOPBIT := 0x8000_0000

  /** The top `n` bits of a 32-bit word, as they come out when it is shifted left. */
  function TopBits(data: nat, n: nat): (bs: seq<bool>)
    ensures |bs| == n
    decreases n
  {
    if n == 0 then [] else [data % WORD32 >= TOPBIT] + TopBits(data * 2 % WORD32, n - 1)
  }

  /** `data << n` in 32 bits. */
  function ShiftLeft(data: nat, n: nat): nat {
    data * Pow2(n) % WORD32
  }

  // ---- frames ----

  function DistanceBit(t: Timing, one: bool): seq<Segment> {
    [Mark(t.bitMark), Space(if one then t.oneSpace else t.zeroSpace)]
  }

  function DistanceSegments(t: Timing, bits: seq<bool>): seq<Segment>
    decreases |bits|
  {
    if bits == [] then [] else DistanceSegments(t, bits[..|bits| - 1]) + DistanceBit(t, bits[|bits| - 1])
  }

  function DistanceFrame(t: Timing, bits: seq<bool>): seq<Segment> {
    [Mark(t.hdrMark), Space(t.hdrSpace)] + DistanceSegments(t, bits) + [Mark(t.bitMark), Space(0)]
  }

  /** A repeat goes without the header. */
  function JvcFrame(bits: seq<bool>, repeat: bool): seq<Segment> {
    if repeat then DistanceSegments(JvcTiming, bits) + [Mark(JvcTiming.bitMark), Space(0)] else DistanceFrame(JvcTiming, bits)
  }

  function SonyBit(one: bool): seq<Segment> {
    [Mark(if one then 1200 else 600), Space(600)]
  }

  function SonySegments(bits: seq<bool>): seq<Segment>
    decreases |bits|
  {
    if bits == [] then [] else SonySegments(bits[..|bits| - 1]) + SonyBit(bits[|bits| - 1])
  }

  function SonyFrame(bits: seq<bool>): seq<Segment> {
    [Mark(2400), Space(600)] + SonySegments(bits)
  }

  /** A Manchester bit: two intervals of `t`, the first of them a mark if `markFirst`. */
  function ManchesterBit(t: nat, markFirst: bool): seq<Segment> {
    [Segment(markFirst, t), Segment(!markFirst, t)]
  }

  function Rc5Segments(bits: seq<bool>): seq<Segment>
    decreases |bits|
  {
    if bits == [] then [] else Rc5Segments(bits[..|bits| - 1]) + ManchesterBit(RC5_T1, !bits[|bits| - 1])
  }

  function Rc5Frame(bits: seq<bool>): seq<Segment> {
    [Mark(RC5_T1), Space(RC5_T1), Mark(RC5_T1)] + Rc5Segments(bits) + [Space(0)]
  }

  /** The fourth bit is twice as wide as the others. */
  function Rc6Width(i: nat): nat {
    if i == 3 then 2 * RC6_T1 else RC6_T1
  }

  function Rc6Segments(bits: seq<bool>): seq<Segment>
    decreases |bits|
  {
    if bits == [] then [] else Rc6Segments(bits[..|bits| - 1]) + ManchesterBit(Rc6Width(|bits| - 1), bits[|bits| - 1])
  }

  function Rc6Frame(bits: seq<bool>): seq<Segment> {
    [Mark(2666), Space(889), Mark(RC6_T1), Space(RC6_T1)] + Rc6Segments(bits) + [Space(0)]
  }

  lemma TopBitsFirst(data: nat, n: nat)
    requires n > 0
    ensures TopBits(data, n) == [data % WORD32 >= TOPBIT] + TopBits(data * 2 % WORD32, n - 1)
    ensures TopBits(data, n)[0] == (data % WORD32 >= TOPBIT)
    ensures TopBits(data, n)[1..] == TopBits(data * 2 % WORD32, n - 1)
  {
  }

  lemma DoubledFirst(data: nat, n: nat)
    requires n > 0
    ensures Doubled(data, n) == Doubled(data * 2 % WORD32, n - 1)
  {
  }

  lemma {:induction false} TopBitsSnoc(data: nat, n: nat)
    ensures TopBits(data, n + 1)[..n] == TopBits(data, n)
    ensures TopBits(data, n + 1)[n] == (Doubled(data, n) % WORD32 >= TOPBIT)
    decreases n
  {
    TopBitsFirst(data, n + 1);
    if n > 0 {
      hide TopBits, Doubled;
      TopBitsFirst(data, n);
      DoubledFirst(data, n);
      TopBitsSnoc(data * 2 % WORD32, n - 1);
      var rest := TopBits(data * 2 % WORD32, n);
      assert ([data % WORD32 >= TOPBIT] + rest)[..n] == [data % WORD32 >= TOPBIT] + rest[..n - 1];
    }
  }

  /** The word after `n` shifts by one. */
  function Doubled(data: nat, n: nat): nat
    decreases n
  {
    if n == 0 then data else Doubled(data * 2 % WORD32, n - 1)
  }

  lemma {:induction false} DoubledSnoc(data: nat, n: nat)
    ensures Doubled(data, n + 1) == Doubled(data, n) * 2 % WORD32
    decreases n
  {
    if n > 0 {
      DoubledSnoc(data * 2 % WORD32, n - 1);
    }
  }

  /** Two more segments for each bit sent, which is the top one of the word as shifted so far. */
  lemma Rc5Next(first: nat, i: nat)
    ensures Rc5Segments(TopBits(first, i + 1)) ==
            Rc5Segments(TopBits(first, i)) + ManchesterBit(RC5_T1, !(Doubled(first, i) % WORD32 >= TOPBIT))
  {
    hide TopBits, Doubled, ManchesterBit;
    TopBitsSnoc(first, i);
  }

  lemma Rc5None(first: nat)
    ensures Rc5Segments(TopBits(first, 0)) == [] && Doubled(first, 0) == first
  {
  }

  lemma Rc6Next(first: nat, i: nat)
    ensures Rc6Segments(TopBits(first, i + 1)) ==
            Rc6Segments(TopBits(first, i)) + ManchesterBit(Rc6Width(i), Doubled(first, i) % WORD32 >= TOPBIT)
  {
    hide TopBits, Doubled, ManchesterBit, Rc6Width;
    TopBitsSnoc(first, i);
  }

  lemma SonyNext(first: nat, i: nat)
    ensures SonySegments(TopBits(first, i + 1)) ==
            SonySegments(TopBits(first, i)) + SonyBit(Doubled(first, i) % WORD32 >= TOPBIT)
  {
    hide TopBits, Doubled, SonyBit;
    TopBitsSnoc(first, i);
  }

  lemma SonyNone(first: nat)
    ensures SonySegments(TopBits(first, 0)) == [] && Doubled(first, 0) == first
  {
  }

  lemma Rc6None(first: nat)
    ensures Rc6Segments(TopBits(first, 0)) == [] && Doubled(first, 0) == first
  {
  }

  class IRsend {
    var line: seq<Segment>

    constructor ()
      ensures line == []
    {
      line := [];
    }

    method SendMark(us: nat)
      modifies this
      ensures line == old(line) + [Mark(us)]
    {
      line := line + [Mark(us)];
    }

    method SendSpace(us: nat)
      modifies this
      ensures line == old(line) + [Space(us)]
    {
      line := line + [Space(us)];
    }

    method SendDistanceBits(data: nat, nbits: nat, t: Timing)
      modifies this
      ensures line == old(line) + DistanceSegments(t, TopBits(data, nbits))
    {
      var word := data;
      for i := 0 to nbits
        invariant word == Doubled(data, i)
        invariant line == old(line) + DistanceSegments(t, TopBits(data, i))
      {
        TopBitsSnoc(data, i);
        DoubledSnoc(data, i);
        SendMark(t.bitMark);
        if word % WORD32 >= TOPBIT {
          SendSpace(t.oneSpace);
        } else {
          SendSpace(t.zeroSpace);
        }
        word := word * 2 % WORD32;
      }
    }

    method SendNEC(data: nat, nbits: nat)
      modifies this
      ensures line == old(line) + DistanceFrame(NecTiming, TopBits(data, nbits))
    {
      SendMark(NecTiming.hdrMark);
      SendSpace(NecTiming.hdrSpace);
      SendDistanceBits(data, nbits, NecTiming);
      SendMark(NecTiming.bitMark);
      SendSpace(0);
    }

    method SendSAMSUNG(data: nat, nbits: nat)
      modifies this
      ensures line == old(line) + DistanceFrame(SamsungTiming, TopBits(data, nbits))
    {
      SendMark(SamsungTiming.hdrMark);
      SendSpace(SamsungTiming.hdrSpace);
      SendDistanceBits(data, nbits, SamsungTiming);
      SendMark(SamsungTiming.bitMark);
      SendSpace(0);
    }

    method SendJVC(data: nat, nbits: nat, repeat: bool)
      requires 1 <= nbits <= 32
      modifies this
      ensures line == old(line) + JvcFrame(TopBits(ShiftLeft(data, 32 - nbits), nbits), repeat)
    {
      hide TopBits, DistanceSegments;
      if !repeat {
        SendMark(JvcTiming.hdrMark);
        SendSpace(JvcTiming.hdrSpace);
      }
      SendDistanceBits(ShiftLeft(data, 32 - nbits), nbits, JvcTiming);
      SendMark(JvcTiming.bitMark);
      SendSpace(0);
    }

    /** 16 bits of address, tested at the top of a 16-bit word, then 32 of data. */
    method SendPanasonic(address: nat, data: nat)
      requires address < 0x1_0000
      modifies this
      ensures line == old(line) + DistanceFrame(PanasonicTiming, TopBits(address * 0x1_0000, 16) + TopBits(data, 32))
    {
      hide TopBits, DistanceSegments;
      SendMark(PanasonicTiming.hdrMark);
      SendSpace(PanasonicTiming.hdrSpace);
      ghost var header := line;
      SendDistanceBits(address * 0x1_0000, 16, PanasonicTiming);
      SendDistanceBits(data, 32, PanasonicTiming);
      DistanceSegmentsConcat(PanasonicTiming, TopBits(address * 0x1_0000, 16), TopBits(data, 32));
      assert line == header + DistanceSegments(PanasonicTiming, TopBits(address * 0x1_0000, 16) + TopBits(data, 32));
      SendMark(PanasonicTiming.bitMark);
      SendSpace(0);
    }

    method SendSonyBits(data: nat, nbits: nat)
      modifies this
      ensures line == old(line) + SonySegments(TopBits(data, nbits))
    {
      SonyNone(data);
      hide TopBits, SonyBit, Doubled, SonySegments;
      var word := data;
      for i := 0 to nbits
        invariant word == Doubled(data, i)
        invariant line == old(line) + SonySegments(TopBits(data, i))
      {
        SonyNext(data, i);
        DoubledSnoc(data, i);
        Sequences.Associate(old(line), SonySegments(TopBits(data, i)), SonyBit(word % WORD32 >= TOPBIT));
        SendSonyBit(word % WORD32 >= TOPBIT);
        word := word * 2 % WORD32;
      }
    }

    method SendSonyBit(one: bool)
      modifies this
      ensures line == old(line) + SonyBit(one)
    {
      SendMark(if one then 1200 else 600);
      SendSpace(600);
    }

    method SendSony(data: nat, nbits: nat)
      requires 1 <= nbits <= 32
      modifies this
      ensures line == old(line) + SonyFrame(TopBits(ShiftLeft(data, 32 - nbits), nbits))
    {
      hide TopBits, SonySegments, ShiftLeft;
      SendMark(2400);
      SendSpace(600);
      SendSonyBits(ShiftLeft(data, 32 - nbits), nbits);
    }

    method SendManchesterBit(t: nat, markFirst: bool)
      modifies this
      ensures line == old(line) + ManchesterBit(t, markFirst)
    {
      if markFirst {
        SendMark(t);
        SendSpace(t);
      } else {
        SendSpace(t);
        SendMark(t);
      }
    }

    method SendRc5Bits(data: nat, nbits: nat)
      modifies this
      ensures line == old(line) + Rc5Segments(TopBits(data, nbits))
    {
      Rc5None(data);
      hide TopBits, ManchesterBit, Doubled, Rc5Segments, Rc6Width;
      var word := data;
      for i := 0 to nbits
        invariant word == Doubled(data, i)
        invariant line == old(line) + Rc5Segments(TopBits(data, i))
      {
        Rc5Next(data, i);
        DoubledSnoc(data, i);
        ghost var bit := ManchesterBit(RC5_T1, !(word % WORD32 >= TOPBIT));
        Sequences.Associate(old(line), Rc5Segments(TopBits(data, i)), bit);
        SendManchesterBit(RC5_T1, !(word % WORD32 >= TOPBIT));    // a 1 is space, then mark
        word := word * 2 % WORD32;
      }
    }

    method SendRC5(data: nat, nbits: nat)
      requires 1 <= nbits <= 32
      modifies this
      ensures line == old(line) + Rc5Frame(TopBits(ShiftLeft(data, 32 - nbits), nbits))
    {
      hide TopBits, Rc5Segments, ShiftLeft;
      SendMark(RC5_T1);
      SendSpace(RC5_T1);
      SendMark(RC5_T1);
      SendRc5Bits(ShiftLeft(data, 32 - nbits), nbits);
      SendSpace(0);
    }

    method SendRc6Bits(data: nat, nbits: nat)
      modifies this
      ensures line == old(line) + Rc6Segments(TopBits(data, nbits))
    {
      Rc6None(data);
      hide TopBits, ManchesterBit, Doubled, Rc6Segments, Rc6Width;
      var word := data;
      for i := 0 to nbits
        invariant word == Doubled(data, i)
        invariant line == old(line) + Rc6Segments(TopBits(data, i))
      {
        Rc6Next(data, i);
        DoubledSnoc(data, i);
        ghost var bit := ManchesterBit(Rc6Width(i), word % WORD32 >= TOPBIT);
        Sequences.Associate(old(line), Rc6Segments(TopBits(data, i)), bit);
        SendManchesterBit(Rc6Width(i), word % WORD32 >= TOPBIT);  // a 1 is mark, then space
        word := word * 2 % WORD32;
      }
    }

    method SendRC6(data: nat, nbits: nat)
      requires 1 <= nbits <= 32
      modifies this
      ensures line == old(line) + Rc6Frame(TopBits(ShiftLeft(data, 32 - nbits), nbits))
    {
      hide TopBits, Rc6Segments, ShiftLeft;
      SendMark(2666);
      SendSpace(889);
      SendMark(RC6_T1);
      SendSpace(RC6_T1);
      SendRc6Bits(ShiftLeft(data, 32 - nbits), nbits);
      SendSpace(0);
    }
  }

  lemma {:induction false} DistanceSegmentsConcat(t: Timing, a: seq<bool>, b: seq<bool>)
    ensures DistanceSegments(t, a + b) == DistanceSegments(t, a) + DistanceSegments(t, b)
    decreases |b|
  {
    if b == [] {
      assert a + b == a;
    } else {
      var n := |b| - 1;
      assert (a + b)[..|a + b| - 1] == a + b[..n];
      DistanceSegmentsConcat(t, a, b[..n]);
    }
  }
}
