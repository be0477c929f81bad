/** A remote control and its receiver, from the call of the sender to the result of the decoder. */
module IrRemote {
  import opened Arithmetic
  import opened Options
  import opened IrSampler
  import opened IrDecoders
  import opened IrSenders
  import opened IrWords
  import opened IrCapture
  import opened IrRc
  import opened IrDispatch
  import opened IrRepeats

  /** Lets the timer interrupt see `levels`, one each tick. */
  method Listen(irparams: IrParams, levels: seq<bool>)
    requires IrSampler.Valid(irparams.State())
    modifies irparams, irparams.rawbuf
    ensures irparams.State() == Run(old(irparams.State()), levels)
  {
    hide Tick;
    ghost var start := irparams.State();
    for i := 0 to |levels|
      invariant IrSampler.Valid(irparams.State()) && irparams.State() == Run(start, levels[..i])
    {
      irparams.TimerInterrupt(levels[i]);
      assert levels[..i + 1][..i] == levels[..i];
    }
    assert levels[..|levels|] == levels;
  }

  /** Everything the sender has put on its line reaches the receiver, which then decodes. */
  method Receive(irparams: IrParams, irsend: IRsend, lag: nat -> nat, phase: nat, silence: nat) returns (r: Option<Results>)
    requires Audience(irparams.State(), lag, phase, silence)
    requires Heard(irparams.State(), irsend.line, lag, phase, silence).rcvstate.Stop?
    modifies irparams, irparams.rawbuf
    ensures irparams.State() == Heard(old(irparams.State()), irsend.line, lag, phase, silence)
    ensures r == DecodedFrom(irparams.State())
  {
    hide Run, Air, DecodeResult;
    Listen(irparams, Air(irsend.line, lag, phase, silence));
    r := Decode(irparams);
  }

  method RemoteNEC(irparams: IrParams, data: nat, lag: nat -> nat, phase: nat, silence: nat) returns (r: Option<Results>)
    requires Audience(irparams.State(), lag, phase, silence) && data < WORD32
    modifies irparams, irparams.rawbuf
    ensures r == Some(Results(NEC, 32, data, 0))
  {
    hide Heard, DistanceFrame, TopBits, DecodeResult;
    var irsend := new IRsend();
    irsend.SendNEC(data, 32);
    assert irsend.line == DistanceFrame(NecTiming, TopBits(data, 32));
    NecRoundTrip(irparams.State(), data, lag, phase, silence);
    r := Receive(irparams, irsend, lag, phase, silence);
  }

  /** A repeat of any 16 bits is known as a repeat, but not which. */
  method RemoteJVCRepeat(irparams: IrParams, data: nat, lag: nat -> nat, phase: nat, silence: nat) returns (r: Option<Results>)
    requires Audience(irparams.State(), lag, phase, silence)
    modifies irparams, irparams.rawbuf
    ensures r == if GapOf(old(irparams.State())) >= 800 then Some(Results(JVC, 0, REPEAT, 0)) else TooSoon
  {
    hide Heard, JvcFrame, TopBits, DecodeResult, ShiftLeft;
    var irsend := new IRsend();
    irsend.SendJVC(data, 16, true);
    var bits := TopBits(ShiftLeft(data, 16), 16);
    assert irsend.line == JvcFrame(bits, true);
    JvcRepeatRoundTrip(irparams.State(), bits, lag, phase, silence);
    r := Receive(irparams, irsend, lag, phase, silence);
  }

  method RemoteRC5(irparams: IrParams, data: nat, n: nat, lag: nat -> nat, phase: nat, silence: nat) returns (r: Option<Results>)
    requires Audience(irparams.State(), lag, phase, silence) && 1 <= n <= 32
    modifies irparams, irparams.rawbuf
    ensures Pow2(n) > 0
    ensures var entries := Rc5Entries(TopBits(ShiftLeft(data, 32 - n), n));
            && irparams.rawlen == entries && n + 3 <= entries <= 2 * n + 4
            && (r == Some(Results(RC5, n, data % Pow2(n), 0)) <==>
                13 <= entries && (entries < 26 || GapOf(old(irparams.State())) >= 800))
  {
    hide Heard, Rc5Frame, TopBits, DecodeResult, ShiftLeft, Pow2, Rc5Entries;
    var irsend := new IRsend();
    irsend.SendRC5(data, n);
    assert irsend.line == Rc5Frame(TopBits(ShiftLeft(data, 32 - n), n));
    Rc5RoundTrip(irparams.State(), data, n, lag, phase, silence);
    r := Receive(irparams, irsend, lag, phase, silence);
  }

  method RemoteRC6(irparams: IrParams, data: nat, n: nat, lag: nat -> nat, phase: nat, silence: nat) returns (r: Option<Results>)
    requires Audience(irparams.State(), lag, phase, silence) && 1 <= n <= 32
    modifies irparams, irparams.rawbuf
    ensures Pow2(n) > 0
    ensures var entries := Rc6Entries(TopBits(ShiftLeft(data, 32 - n), n));
            && irparams.rawlen == entries
            && r == if entries < 26 || GapOf(old(irparams.State())) >= 800 then Some(Results(RC6, n, data % Pow2(n), 0))
                    else TooSoon
  {
    hide Heard, Rc6Frame, TopBits, DecodeResult, ShiftLeft, Pow2, Rc6Entries;
    var irsend := new IRsend();
    irsend.SendRC6(data, n);
    assert irsend.line == Rc6Frame(TopBits(ShiftLeft(data, 32 - n), n));
    Rc6RoundTrip(irparams.State(), data, n, lag, phase, silence);
    r := Receive(irparams, irsend, lag, phase, silence);
  }
}
