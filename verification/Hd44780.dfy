/** The display controller behind four data lines: what it makes of the strobes on its Enable pin. */
module Hd44780 {
  import opened Options
  import Sequences

  /** A falling edge of Enable: the register select line, and the data lines D7 to D4 in the low four bits. */
  datatype Strobe = Strobe(rs: bool, lines: bv8)

  datatype Interface = EightBit | FourBit(pending: Option<bv8>)

  /** A whole byte; or, while eight data lines are expected, the four that are connected. */
  datatype Heard = Byte(rs: bool, value: bv8) | Half(rs: bool, lines: bv8)

  datatype Controller = Controller(mode: Interface, received: seq<Heard>)

  const Aligned := FourBit(None)

  /** Only the command "function set" changes the interface: its bit 4 asks for eight lines. */
  function Execute(c: Controller, h: Heard): Controller {
    var c' := c.(received := c.received + [h]);
    match h
    case Byte(rs, v) =>
      if rs || v & 0xE0 != 0x20 then c' else c'.(mode := if v & 0x10 != 0 then EightBit else Aligned)
    case Half(rs, l) =>
      if rs || l & 0x0E != 0x02 then c' else c'.(mode := if l & 0x01 != 0 then EightBit else Aligned)
  }

  function OnStrobe(c: Controller, s: Strobe): Controller {
    var l := s.lines & 0x0F;
    match c.mode
    case EightBit => Execute(c, Half(s.rs, l))
    case FourBit(None) => c.(mode := FourBit(Some(l)))
    case FourBit(Some(h)) => Execute(c.(mode := Aligned), Byte(s.rs, (h << 4) | l))
  }

  function Feed(c: Controller, ss: seq<Strobe>): Controller
    decreases |ss|
  {
    if ss == [] then c else Feed(OnStrobe(c, ss[0]), ss[1..])
  }

  lemma {:induction false} FeedConcat(c: Controller, a: seq<Strobe>, b: seq<Strobe>)
    ensures Feed(c, a + b) == Feed(Feed(c, a), b)
    decreases |a|
  {
    if a == [] {
      assert a + b == b;
    } else {
      assert (a + b)[1..] == a[1..] + b;
      FeedConcat(OnStrobe(c, a[0]), a[1..], b);
    }
  }

  // ---- what drivers send ----

  datatype Mode = COMMAND | DATA | FOUR_BITS

  /** One call of the interface that every driver implements. */
  datatype Call = Send(value: bv8, mode: Mode) | SetBacklight(level: bv8)

  function ByteStrobes(rs: bool, v: bv8): seq<Strobe> {
    [Strobe(rs, v >> 4), Strobe(rs, v & 0x0F)]
  }

  /** The strobes by which a driver has to deliver a call. */
  function Strobes(value: bv8, mode: Mode): seq<Strobe> {
    match mode
    case FOUR_BITS => [Strobe(false, value & 0x0F)]
    case COMMAND => ByteStrobes(false, value)
    case DATA => ByteStrobes(true, value)
  }

  /** The strobes of a list of calls: switching the backlight strobes nothing. */
  function Delivered(calls: seq<Call>): seq<Strobe>
    decreases |calls|
  {
    if calls == [] then []
    else
      var last := calls[|calls| - 1];
      Delivered(calls[..|calls| - 1]) + match last case Send(value, mode) => Strobes(value, mode) case SetBacklight(_) => []
  }

  lemma DeliveredSnoc(calls: seq<Call>, call: Call)
    ensures Delivered(calls + [call]) ==
            Delivered(calls) + match call case Send(value, mode) => Strobes(value, mode) case SetBacklight(_) => []
  {
    assert (calls + [call])[..|calls|] == calls;
  }

  lemma NothingDelivered()
    ensures Delivered([]) == []
  {
  }

  lemma FeedOne(c: Controller, s: Strobe)
    ensures Feed(c, [s]) == OnStrobe(c, s)
  {
    assert [s][1..] == [];
  }

  lemma FeedTwo(c: Controller, s: Strobe, t: Strobe)
    ensures Feed(c, [s, t]) == OnStrobe(OnStrobe(c, s), t)
  {
    assert [s, t][1..] == [t];
    FeedOne(OnStrobe(c, s), t);
  }

  // ---- getting in step ----

  /** The four half bytes of the four-line initialisation. */
  function InitStrobes(): seq<Strobe> {
    [Strobe(false, 3), Strobe(false, 3), Strobe(false, 3), Strobe(false, 2)]
  }

  /** Whatever state the controller is in, expecting eight lines, a first half or any second half: afterwards it expects
      the first half of a byte. */
  lemma Resynchronises(c: Controller)
    ensures Feed(c, InitStrobes()).mode == Aligned
    ensures c.received <= Feed(c, InitStrobes()).received
  {
    var three, two := Strobe(false, 3), Strobe(false, 2);
    assert InitStrobes() == [three, three] + [three, two];
    FeedConcat(c, [three, three], [three, two]);
    FeedTwo(c, three, three);
    FeedTwo(Feed(c, [three, three]), three, two);
  }

  /** The command asks the controller for eight lines. */
  predicate AsksForEight(rs: bool, v: bv8) {
    !rs && v & 0xF0 == 0x30
  }

  /** A controller that expects eight lines takes every strobe for a byte, of which it sees the upper half: only the
      command 0x20 to 0x2F, "function set" with four lines, makes it expect halves. */
  lemma OneHalf(c: Controller, s: Strobe)
    requires c.mode == EightBit
    ensures var half := s.lines & 0x0F;
            OnStrobe(c, s) == Controller(if !s.rs && half == 0x02 then Aligned else EightBit, c.received + [Half(s.rs, half)])
  {
    UpperHalf(s.lines & 0x0F);
  }

  lemma UpperHalf(l: bv8)
    ensures l & 0x0E == 0x02 && l & 0x01 == 0 <==> l & 0x0F == 0x02
    ensures l & 0xF0 == 0 ==> l & 0x0F == l
    ensures (l & 0x0F) & 0xF0 == 0
  {
  }

  lemma OneByte(c: Controller, rs: bool, v: bv8)
    requires c.mode == Aligned
    ensures Feed(c, ByteStrobes(rs, v)) ==
            Controller(if AsksForEight(rs, v) then EightBit else Aligned, c.received + [Byte(rs, v)])
  {
    FeedTwo(c, Strobe(rs, v >> 4), Strobe(rs, v & 0x0F));
    Halves(v);
    assert !rs && v & 0xE0 == 0x20 && v & 0x10 != 0 <==> AsksForEight(rs, v) by { FunctionSet(v); }
  }

  lemma Halves(v: bv8)
    ensures (((v >> 4) & 0x0F) << 4) | ((v & 0x0F) & 0x0F) == v
  {
  }

  lemma FunctionSet(v: bv8)
    ensures v & 0xE0 == 0x20 && v & 0x10 != 0 <==> v & 0xF0 == 0x30
  {
  }

  // ---- bytes stay whole ----

  datatype Message = Message(rs: bool, value: bv8)

  function MessageStrobes(ms: seq<Message>): seq<Strobe>
    decreases |ms|
  {
    if ms == [] then [] else ByteStrobes(ms[0].rs, ms[0].value) + MessageStrobes(ms[1..])
  }

  function AsBytes(ms: seq<Message>): seq<Heard> {
    seq(|ms|, i requires 0 <= i < |ms| => Byte(ms[i].rs, ms[i].value))
  }

  /** No message before the last one asks for eight lines. */
  predicate StaysInFour(ms: seq<Message>) {
    forall i | 0 <= i < |ms| - 1 :: !AsksForEight(ms[i].rs, ms[i].value)
  }

  lemma {:induction false} FeedGrows(c: Controller, ss: seq<Strobe>)
    ensures c.received <= Feed(c, ss).received
    decreases |ss|
  {
    if ss != [] {
      FeedGrows(OnStrobe(c, ss[0]), ss[1..]);
    }
  }

  /** After that command, the next thing heard is half of the next message. */
  lemma NextIsHalf(c: Controller, m: Message, ms: seq<Message>)
    requires c.mode == EightBit
    ensures var r := Feed(c, MessageStrobes([m] + ms)).received;
            |r| > |c.received| && r[|c.received|].Half?
  {
    assert ([m] + ms)[1..] == ms;
    var all := MessageStrobes([m] + ms);
    assert all == ByteStrobes(m.rs, m.value) + MessageStrobes(ms);
    FeedGrows(OnStrobe(c, all[0]), all[1..]);
  }

  /** An aligned controller receives every message whole, exactly if none but the last one asks for eight lines. */
  lemma {:induction false} MessagesWhole(c: Controller, ms: seq<Message>)
    requires c.mode == Aligned
    ensures Feed(c, MessageStrobes(ms)).received == c.received + AsBytes(ms) <==> StaysInFour(ms)
    ensures (forall i :: 0 <= i < |ms| ==> !AsksForEight(ms[i].rs, ms[i].value)) ==> Feed(c, MessageStrobes(ms)).mode == Aligned
    decreases |ms|
  {
    if ms == [] {
      assert c.received + AsBytes(ms) == c.received;
    } else {
      var m, rest := ms[0], ms[1..];
      var c1 := Feed(c, ByteStrobes(m.rs, m.value));
      OneByte(c, m.rs, m.value);
      FeedConcat(c, ByteStrobes(m.rs, m.value), MessageStrobes(rest));
      hide Feed;
      assert c.received + AsBytes(ms) == c1.received + AsBytes(rest);
      if !AsksForEight(m.rs, m.value) {
        MessagesWhole(c1, rest);
        StaysTail(ms);
        assert forall i :: 1 <= i < |ms| ==> ms[i] == rest[i - 1];
      } else if rest == [] {
        assert MessageStrobes(rest) == [] && AsBytes(rest) == [];
        FeedNothing(c1);
      } else {
        NextIsHalf(c1, rest[0], rest[1..]);
        assert [rest[0]] + rest[1..] == rest;
        assert (c1.received + AsBytes(rest))[|c1.received|] == AsBytes(rest)[0];
      }
    }
  }

  /** A session of any driver: the four half bytes, and then any calls, of which some may switch the backlight. */
  function InitCalls(): seq<Call> {
    [Send(0x03, FOUR_BITS), Send(0x03, FOUR_BITS), Send(0x03, FOUR_BITS), Send(0x02, FOUR_BITS)]
  }

  lemma InitDelivered()
    ensures Delivered(InitCalls()) == InitStrobes()
  {
    var three, two := Send(0x03, FOUR_BITS), Send(0x02, FOUR_BITS);
    assert InitCalls() == [] + [three] + [three] + [three] + [two];
    NothingDelivered();
    DeliveredSnoc([], three);
    DeliveredSnoc([] + [three], three);
    DeliveredSnoc([] + [three] + [three], three);
    DeliveredSnoc([] + [three] + [three] + [three], two);
  }

  lemma {:induction false} DeliveredConcat(a: seq<Call>, b: seq<Call>)
    ensures Delivered(a + b) == Delivered(a) + Delivered(b)
    decreases |b|
  {
    hide Strobes;
    if b == [] {
      assert a + b == a;
    } else {
      var n := |b| - 1;
      Sequences.LastApart(b);
      DeliveredConcat(a, b[..n]);
      Sequences.Associate(a, b[..n], [b[n]]);
      DeliveredSnoc(a + b[..n], b[n]);
      DeliveredSnoc(b[..n], b[n]);
    }
  }

  /** After the initialisation only whole bytes are sent. */
  predicate WholeBytes(calls: seq<Call>) {
    forall i | 0 <= i < |calls| :: calls[i].Send? ==> calls[i].mode != FOUR_BITS
  }

  /** The bytes that were sent. */
  function MessagesOf(calls: seq<Call>): seq<Message>
    decreases |calls|
  {
    if calls == [] then []
    else MessageOf(calls[0]) + MessagesOf(calls[1..])
  }

  function MessageOf(call: Call): seq<Message> {
    match call
    case Send(value, mode) => [Message(mode == DATA, value)]
    case SetBacklight(_) => []
  }

  /** What drivers deliver of whole bytes is what the controller is to receive as messages. */
  lemma {:induction false} DeliveredIsMessages(calls: seq<Call>)
    requires WholeBytes(calls)
    ensures Delivered(calls) == MessageStrobes(MessagesOf(calls))
    decreases |calls|
  {
    if calls == [] {
      NothingDelivered();
    } else {
      hide Delivered, MessageStrobes, Strobes, ByteStrobes;
      var call, rest := calls[0], calls[1..];
      assert forall i :: 0 <= i < |rest| ==> rest[i] == calls[i + 1];
      Sequences.FirstApart(calls);
      DeliveredConcat([call], rest);
      DeliveredIsMessages(rest);
      OneDelivered(call, MessagesOf(rest));
    }
  }

  lemma OneDelivered(call: Call, rest: seq<Message>)
    requires call.Send? ==> call.mode != FOUR_BITS
    ensures Delivered([call]) + MessageStrobes(rest) == MessageStrobes(MessageOf(call) + rest)
  {
    NothingDelivered();
    assert [] + [call] == [call];
    DeliveredSnoc([], call);
    hide Delivered, ByteStrobes;
    match call
    case Send(value, mode) =>
      var m := Message(mode == DATA, value);
      assert ([m] + rest)[1..] == rest;
    case SetBacklight(_) =>
      assert [] + rest == rest;
  }

  /** Whatever state the controller was in: after the initialisation by any driver it receives the bytes of any calls
      whole, exactly if no command before the last one asks for eight lines. */
  lemma SessionWhole(c: Controller, calls: seq<Call>)
    requires WholeBytes(calls)
    ensures var ms, c' := MessagesOf(calls), Feed(c, Delivered(InitCalls() + calls));
            && (c'.received == Feed(c, InitStrobes()).received + AsBytes(ms) <==> StaysInFour(ms))
            && ((forall i :: 0 <= i < |ms| ==> !AsksForEight(ms[i].rs, ms[i].value)) ==> c'.mode == Aligned)
  {
    hide *;
    var ms := MessagesOf(calls);
    DeliveredConcat(InitCalls(), calls);
    InitDelivered();
    DeliveredIsMessages(calls);
    FeedConcat(c, InitStrobes(), MessageStrobes(ms));
    Resynchronises(c);
    MessagesWhole(Feed(c, InitStrobes()), ms);
  }

  lemma FeedNothing(c: Controller)
    ensures Feed(c, []) == c
  {
  }

  lemma StaysTail(ms: seq<Message>)
    requires ms != [] && !AsksForEight(ms[0].rs, ms[0].value)
    ensures StaysInFour(ms) <==> StaysInFour(ms[1..])
  {
    hide AsksForEight;
    forall i | 1 <= i < |ms| - 1
      ensures !AsksForEight(ms[i].rs, ms[i].value) <==> !AsksForEight(ms[1..][i - 1].rs, ms[1..][i - 1].value)
    {
      assert ms[1..][i - 1] == ms[i];
    }
    if StaysInFour(ms[1..]) {
      forall i | 0 <= i < |ms| - 1 ensures !AsksForEight(ms[i].rs, ms[i].value) {
        if i > 0 {
          assert !AsksForEight(ms[1..][i - 1].rs, ms[1..][i - 1].value);
        }
      }
    }
    if StaysInFour(ms) {
      forall i | 0 <= i < |ms[1..]| - 1 ensures !AsksForEight(ms[1..][i].rs, ms[1..][i].value) {
        assert !AsksForEight(ms[i + 1].rs, ms[i + 1].value);
      }
    }
  }
}
