# Protocols of the Arduino libraries

Six of the repository's Arduino libraries hold protocol or arithmetic logic of their own. This project models them
without their hardware and proves what they are for. Objects of the source are classes with the same fields; their
methods are proved against step functions on values; the theorems are about those functions, over every run.

* **1-Wire alarm search** (`RomOrder`, `AlarmSearch`). The bus is a set of devices that answer together, wired-AND. The
  search, whose whole memory is one address, one junction index and one flag, is proved to enumerate the alarming devices
  in ascending order, each exactly once, whatever was left in its address buffer.
* **433 MHz switches** (`NewRemoteGrammar`, `NewRemoteTransmitter`, `NewRemoteDecoder`, `NewRemoteReceiver`,
  `NewRemoteLink`, `NewRemoteBurst`, `NewRemoteProtocol`). The receiver is proved sound and complete against a grammar of telegrams, deaf to
  glitches, and is put at the other end of the air from the transmitter, at any start time, after any silence and across
  clock wrap.
* **Infrared** (`IrSignal`, `IrSampler`, `IrDecoders`, `IrSenders`, `IrCapture`, `IrWords`, `IrDistance`, `IrManchester`,
  `IrRc`, `IrDispatch`, `IrRepeats`, `IrRemote`, `IrFrames`, `IrExact`, `IrLevels`). A frame is printed by the sender,
  stretched by a sensor whose lag may vary, sampled by the timer interrupt at an arbitrary phase, and decoded by the first
  of ten decoders that accepts it. Every frame is written out segment by segment, and what each decoder accepts is
  characterised exactly, for every recording.
* **Character displays** (`Hd44780`, `Lcd`, `LcdWiring`, `LcdParallel`, `LcdExpander`, `LcdShiftRegister`,
  `LcdTransports`). A controller that hears strobes of four lines; the driver that gets it in step from any state; and
  five transports that deliver the same strobes for the same calls, so that what is proved of the driver holds behind each
  of them.
* **Firmata** (`Firmata`, `FirmataLink`, `FirmataProtocol`). Printer and parser, with the in-place string decoding.
* **Small arithmetic** (`NeoPixel`, `NewPing`). Brightness scaling in the integers of the board, and the running median.

`Arithmetic`, `Bits`, `Options` and `Sequences` are shared.

## Where the code does not do what it says

These are proved, each with the exact condition.

* The transmitter's header promises up to 2^8 telegrams; the 8-bit loop counter makes 8 send nothing
  (`CountIsPowerOfTwo`).
* After an `on` telegram with four dim bits the receiver expects a stop pulse. If that pulse is a short or long one, its
  state runs past the last one it knows: it ignores 32620 pulses until its 16-bit state wraps, and then goes on counting
  until a pulse is neither (`GoesDeaf`, `TelegramDeafens`, `DeafUntilWrap`, `HearsAgain`).
* The library's `sendDim` is not understood by the library's receiver, which takes a dim level only with the symbol for on
  (`DimRefused`, `DimNeverReceived`).
* A silence that measures more than 4800 microseconds, modulo 65536, is taken for a stop pulse: the telegrams after it may
  be filtered out altogether, or be called back with the period that the silence seemed to have (`BurstReceived`,
  `SilenceHelps`).
* The filter for short pulses works while the receiver is decoding. If the pulse before a segment loses synchronisation, a
  glitch in that segment is not filtered (`GlitchTransparent`, `GlitchMatters`).
* The constants that the decoders of Sony and Sanyo compare the leading gap with are named in microseconds, and compared
  with ticks. After a gap of less than 800 ticks (500 for Sony's own), 26 entries or more of any other protocol but NEC
  are reported as a repeat of Sanyo's (`ShortGap`, and the exact conditions in each round trip). Sony's own repeat carries
  the type of Sanyo's.
* RC5 refuses recordings of fewer than 13 entries, so that short words can be sent but not received: no word of up to four
  bits comes back, words of five to nine if enough of their bits repeat the one before, longer ones always, the gap permitting (`Rc5RoundTrip`,
  `Rc5EntriesBounds`, `Rc5DependsOnWord`).
* The recording that the code itself calls typical of Mitsubishi's is a code to none of the ten decoders: one entry is 8
  ticks long where 3 to 7 are accepted (`TypicalMitsubishiRefused`, with `MitsubishiReceived` for the exact condition).
* Sanyo's decoder is said to be like Sony's but for its timings. It wants two header entries and counts one bit too many
  (`SanyoReceived`).
* The gap is timed in 16 bits: a frame 3.3 seconds after the last one can meet the case of a short gap (`LongSilence`).
* A Firmata string that is empty is delivered as such exactly if the last channel message was not for channel 0, because
  the terminator is decided by the byte in front of the buffer, which in this class layout is the channel
  (`EmptyStringRoundTrip`).
* A digital port value with bit 14 set does not arrive: its upper byte is taken for a command (`DigitalRoundTrip`).
* With an `int` of 16 bits, a stored NeoPixel colour of 128 or more is scaled up wrongly at every brightness but the last
  one below the maximum (`NarrowRestores`).

## Model

| member | source | states |
|---|---|---|
| RomOrder.BeyondIsFork | arduino/libraries/DallasTemperature/DallasTemperature.cpp:686-710 | addresses beyond the last one found are exactly those that leave its path at a fork where it took 0: so with no such fork the search is exhausted |
| RomOrder.LeastOfSubtreeIsNext | arduino/libraries/DallasTemperature/DallasTemperature.cpp:686-710 | taking 1 at the deepest such fork and 0 at every later one leads to the next address in order |
| RomOrder.RunEnumerates | arduino/libraries/DallasTemperature/DallasTemperature.cpp:658-728 | of any number of calls after a reset, the first ones, as many as S has members, yield members of S, strictly ascending, and together every one of them; every later one yields nothing |
| RomOrder.EnumerationUnique | arduino/libraries/DallasTemperature/DallasTemperature.cpp:658-728 | the set of alarming devices alone determines the enumeration |
| AlarmSearch.ScanStep | arduino/libraries/DallasTemperature/DallasTemperature.cpp:681-719 | one bit of the walk keeps: the path so far is the least continuation beyond the last address, the junction is its deepest 0-fork |
| AlarmSearch.ScanDone | arduino/libraries/DallasTemperature/DallasTemperature.cpp:681-728 | after 64 bits that path is the next address, and `done` says that no 0-fork is left |
| AlarmSearch.HandlerLogEnumerates | arduino/libraries/DallasTemperature/DallasTemperature.cpp:761-773 | the handler is called for the valid members of S and no others, once each, in order |
| AlarmSearch.RomDigits | arduino/libraries/DallasTemperature/DallasTemperature.cpp:716-718 | bit i of the 64 is binary digit i % 8, counted from the lowest, of byte i / 8 |
| AlarmSearch.Bus.ReadBit | arduino/libraries/DallasTemperature/DallasTemperature.cpp:683-684 | a slot reads 1 only if no participant answers 0, first with the bit and then with its complement |
| AlarmSearch.Bus.WriteBit | arduino/libraries/DallasTemperature/DallasTemperature.cpp:719 | the devices with the other bit drop out |
| AlarmSearch.Bus.Reset | arduino/libraries/DallasTemperature/DallasTemperature.cpp:676 | all devices take part again, and say whether there are any |
| AlarmSearch.Bus.Write | arduino/libraries/DallasTemperature/DallasTemperature.cpp:679 | after 0xEC only the alarming devices go on to answer, after 0xF0 all of them, after anything else none |
| AlarmSearch.DallasTemperature.ResetAlarmSearch | arduino/libraries/DallasTemperature/DallasTemperature.cpp:647-655 | clears seven bytes, leaves the eighth, and yet the next search starts from nothing |
| AlarmSearch.DallasTemperature.ChooseBranch | arduino/libraries/DallasTemperature/DallasTemperature.cpp:693-716 | the branch at a bit, and what becomes of junction, last junction and done |
| AlarmSearch.DallasTemperature.WriteAddressBit | arduino/libraries/DallasTemperature/DallasTemperature.cpp:685-686 | setting or clearing through the mask changes that one bit of the 64 |
| AlarmSearch.DallasTemperature.TakeBit | arduino/libraries/DallasTemperature/DallasTemperature.cpp:681-719 | one pass keeps the bus, the path and the scan in step; nobody answers only if nobody alarms |
| AlarmSearch.DallasTemperature.WalkTree | arduino/libraries/DallasTemperature/DallasTemperature.cpp:681-719 | a complete walk finds the next address and its deepest 0-fork |
| AlarmSearch.DallasTemperature.CopyAddress | arduino/libraries/DallasTemperature/DallasTemperature.cpp:724 | all eight bytes are copied |
| AlarmSearch.DallasTemperature.AlarmSearch | arduino/libraries/DallasTemperature/DallasTemperature.cpp:669-728 | the next address in order is found, if there is one, and each of the eight bytes copied out is the number whose digits are its bits of that address; otherwise nothing changes |
| AlarmSearch.DallasTemperature.HasAlarm | arduino/libraries/DallasTemperature/DallasTemperature.cpp:752-758 | true exactly if some device alarms |
| AlarmSearch.DallasTemperature.CallHandler | arduino/libraries/DallasTemperature/DallasTemperature.cpp:768-770 | the handler is called exactly if the address is valid |
| AlarmSearch.DallasTemperature.VisitNext | arduino/libraries/DallasTemperature/DallasTemperature.cpp:766-772 | one turn of the loop: one more device handled, and strictly fewer left beyond it |
| AlarmSearch.DallasTemperature.ProcessAlarms | arduino/libraries/DallasTemperature/DallasTemperature.cpp:761-773 | terminates, having visited every alarming device once and called the handler for the valid ones |
| AlarmSearch.DallasTemperature.SearchRepeatedly | arduino/libraries/DallasTemperature/DallasTemperature.cpp:647-728 | any number of calls after a reset is such a run, whatever the address buffer held, and so yields every alarming device exactly once before it yields nothing |
| NewRemoteGrammar.TelegramUnique | arduino/libraries/NewRemoteSwitch/NewRemoteReceiver.cpp:13-34 | a list of pulse lengths has one reading as a telegram |
| NewRemoteDecoder.FeedStep | arduino/libraries/NewRemoteSwitch/NewRemoteReceiver.cpp:110-302 | a pulse continues the telegram exactly if the grammar lets it, completes it exactly if the pulses so far are a telegram, and otherwise loses synchronisation |
| NewRemoteDecoder.TelegramAccepted | arduino/libraries/NewRemoteSwitch/NewRemoteReceiver.cpp:130-220 | every telegram of the grammar fed to a synchronised decoder is counted, and called back with its own fields once there are enough in a row |
| NewRemoteDecoder.CallbackSound | arduino/libraries/NewRemoteSwitch/NewRemoteReceiver.cpp:72-304 | every callback is preceded, since a pulse longer than 4800, by telegrams only, of which the last max(1, minRepeats) all have the address, group bit, unit, switch type and dim level called back; the period is a 40th of that pulse, and the fields are in range |
| NewRemoteDecoder.RunExplained | arduino/libraries/NewRemoteSwitch/NewRemoteReceiver.cpp:72-304 | over any run, a decoder in mid-telegram has read a list of telegrams and the beginning of another since it synchronised, and its repeat count is honest |
| NewRemoteDecoder.Deaf | arduino/libraries/NewRemoteSwitch/NewRemoteReceiver.cpp:130-302 | once past state 147 nothing is received for as many pulses as it takes a 16-bit state to wrap |
| NewRemoteDecoder.GoesDeaf | arduino/libraries/NewRemoteSwitch/NewRemoteReceiver.cpp:130-302 | it gets there exactly if the pulse due as a stop pulse after four dim bits is short or long |
| NewRemoteDecoder.TelegramDeafens | arduino/libraries/NewRemoteSwitch/NewRemoteReceiver.cpp:130-302 | so every telegram with a dim level whose last pulse is cut to the length of a part deafens a receiver that was in step |
| NewRemoteDecoder.DeafUntilWrap | arduino/libraries/NewRemoteSwitch/NewRemoteReceiver.cpp:130-302 | for 32620 pulses of any length: then the state is -32768 |
| NewRemoteDecoder.HearsAgain | arduino/libraries/NewRemoteSwitch/NewRemoteReceiver.cpp:130-302 | from there it counts short and long pulses without calling back, and the first pulse that is neither makes it wait for synchronisation again |
| NewRemoteDecoder.DimRefused | arduino/libraries/NewRemoteSwitch/NewRemoteReceiver.cpp:161-171 | what `sendDim` prints is read up to its stop pulse and then refused, because the symbol before the dim level is not the one for on |
| NewRemoteReceiver.GlitchTransparent | arduino/libraries/NewRemoteSwitch/NewRemoteReceiver.cpp:90-107 | as long as the decoder goes on decoding, any train of pulses shorter than the minimum inside a segment leaves receiver and callbacks as if it had not been there |
| NewRemoteReceiver.GlitchMatters | arduino/libraries/NewRemoteSwitch/NewRemoteReceiver.cpp:90-107 | and not otherwise: whenever the pulse pending before the segment loses synchronisation, there is a glitch that makes a difference |
| NewRemoteReceiver.FeedingEdge | arduino/libraries/NewRemoteSwitch/NewRemoteReceiver.cpp:88-107 | an edge that is no glitch feeds the decoder the pulse before the last one, measured across clock wrap |
| NewRemoteReceiver.NewRemoteReceiver.InterruptHandler | arduino/libraries/NewRemoteSwitch/NewRemoteReceiver.cpp:72-304 | the handler is the edge filter in front of the decoder, state for state and callback for callback |
| NewRemoteReceiver.NewRemoteReceiver.HandlePulse | arduino/libraries/NewRemoteSwitch/NewRemoteReceiver.cpp:110-302 | the state machine on one filtered pulse |
| NewRemoteReceiver.NewRemoteReceiver.HandleSymbolPulse | arduino/libraries/NewRemoteSwitch/NewRemoteReceiver.cpp:144-202 | short, long or stop pulse, in states 2 to 147 |
| NewRemoteReceiver.NewRemoteReceiver.HandleStop | arduino/libraries/NewRemoteSwitch/NewRemoteReceiver.cpp:155-202 | accepts a stop pulse in states 131 and 147 only, the latter after `on` only |
| NewRemoteReceiver.NewRemoteReceiver.TelegramReceived | arduino/libraries/NewRemoteSwitch/NewRemoteReceiver.cpp:173-200 | repeat counting in a byte, callback and restart, for a handler that is not entered again during the callback |
| NewRemoteReceiver.NewRemoteReceiver.Enable | arduino/libraries/NewRemoteSwitch/NewRemoteReceiver.cpp:56-59 | synchronisation is lost and nothing else |
| NewRemoteReceiver.NewRemoteReceiver.Disable | arduino/libraries/NewRemoteSwitch/NewRemoteReceiver.cpp:61-63 | the decoder keeps its state |
| NewRemoteReceiver.NewRemoteReceiver.ShiftPartIn | arduino/libraries/NewRemoteSwitch/NewRemoteReceiver.cpp:145-154 | a short part clears the low bit and the high nibble, a long one sets the low bit |
| NewRemoteReceiver.NewRemoteReceiver.AdvanceSymbol | arduino/libraries/NewRemoteSwitch/NewRemoteReceiver.cpp:208-302 | the last part of a symbol puts it into its field, or loses synchronisation |
| NewRemoteReceiver.NewRemoteReceiver.constructor | arduino/libraries/NewRemoteSwitch/NewRemoteReceiver.cpp:45-54 | enabled and not synchronised |
| NewRemoteTransmitter.CountIsPowerOfTwo | arduino/libraries/NewRemoteSwitch/NewRemoteTransmitter.cpp:11-20 | 2^r telegrams for r up to 7, none for 8 and above |
| NewRemoteTransmitter.NewRemoteTransmitter.SendUnit | arduino/libraries/NewRemoteSwitch/NewRemoteTransmitter.cpp:39-55 | the telegram for address, unit and on/off, as often as the mask says |
| NewRemoteTransmitter.NewRemoteTransmitter.SendGroup | arduino/libraries/NewRemoteSwitch/NewRemoteTransmitter.cpp:20-37 | the telegram with the group bit and unit 0, as often as the mask says |
| NewRemoteTransmitter.NewRemoteTransmitter.SendBit | arduino/libraries/NewRemoteSwitch/NewRemoteTransmitter.cpp:112-134 | short long short short for 1, short short short long for 0 |
| NewRemoteTransmitter.NewRemoteTransmitter.SendStartPulse | arduino/libraries/NewRemoteSwitch/NewRemoteTransmitter.cpp:86-91 | 1 period high, 10.5 low, the half rounded down |
| NewRemoteTransmitter.NewRemoteTransmitter.SendStopPulse | arduino/libraries/NewRemoteSwitch/NewRemoteTransmitter.cpp:105-110 | 1 period high, 40 low |
| NewRemoteTransmitter.NewRemoteTransmitter.SendAddress | arduino/libraries/NewRemoteSwitch/NewRemoteTransmitter.cpp:93-97 | the low 26 bits, top one first |
| NewRemoteTransmitter.NewRemoteTransmitter.SendUnitNumber | arduino/libraries/NewRemoteSwitch/NewRemoteTransmitter.cpp:99-103 | the low 4 bits, top one first |
| NewRemoteTransmitter.NewRemoteTransmitter.SendTelegram | arduino/libraries/NewRemoteSwitch/NewRemoteTransmitter.cpp:41-54 | the six parts of a telegram in their order |
| NewRemoteTransmitter.NewRemoteTransmitter.SendDim | arduino/libraries/NewRemoteSwitch/NewRemoteTransmitter.cpp:57-84 | the telegram with the dim symbol, the unit and four bits of dim level, as often as the mask says |
| NewRemoteTransmitter.NewRemoteTransmitter.SendDimTelegram | arduino/libraries/NewRemoteSwitch/NewRemoteTransmitter.cpp:59-82 | the seven parts of a dim telegram in their order |
| NewRemoteTransmitter.NewRemoteTransmitter.SendRepeatedly | arduino/libraries/NewRemoteSwitch/NewRemoteTransmitter.cpp:20-82 | the loop with its 8-bit counter, around the telegrams of all three senders |
| NewRemoteTransmitter.NewRemoteTransmitter.constructor | arduino/libraries/NewRemoteSwitch/NewRemoteTransmitter.cpp:11-18 | the repeat mask in one byte |
| NewRemoteLink.SentBody | arduino/libraries/NewRemoteSwitch/NewRemoteTransmitter.cpp:39-134 | what is sent is a telegram of the grammar for the low 26 bits of the address and the low 4 of the unit, by the measure of every receiver tuned closely enough |
| NewRemoteLink.StartDecides | arduino/libraries/NewRemoteSwitch/NewRemoteReceiver.cpp:136-154 | how closely is decided by the start pulse alone: a tuning that accepts it reads every bit |
| NewRemoteLink.SentDimBody | arduino/libraries/NewRemoteSwitch/NewRemoteTransmitter.cpp:57-82 | what `sendDim` sends is a dim symbol and a dim level in the same frame |
| NewRemoteLink.CutDimDeafens | arduino/libraries/NewRemoteSwitch/NewRemoteReceiver.cpp:130-302 | such a telegram, cut in its last pulse, deafens a synchronised receiver |
| NewRemoteLink.EdgesFeed | arduino/libraries/NewRemoteSwitch/NewRemoteReceiver.cpp:88-107 | edges with no glitch among them feed the decoder exactly the lengths sent, one edge late: same callbacks, and same decoder afterwards |
| NewRemoteBurst.RejectedTelegram | arduino/libraries/NewRemoteSwitch/NewRemoteReceiver.cpp:110-142 | a synchronised decoder loses a telegram whose stop pulse is outside its window, and calls nobody |
| NewRemoteBurst.BurstReceived | arduino/libraries/NewRemoteSwitch/NewRemoteReceiver.cpp:72-304 | n telegrams to an idle receiver, at any time, across wrap, whatever it heard before: as a rule exactly (n - 1) / (max(1, m) + 1) callbacks if 121 <= T <= 819 and none otherwise, each with the address, group bit, switch and unit sent and period T; if the silence before, or the pulse before that, measured more than 4800 microseconds modulo 2^16, exactly the callbacks that follow from the receiver having synchronised on it |
| NewRemoteBurst.TunedBurst | arduino/libraries/NewRemoteSwitch/NewRemoteReceiver.cpp:110-205 | a receiver that has synchronised on the silence, closely enough to read the burst, calls back after max(1, m) telegrams with the period of the silence, if their stop pulse is in its window, and by the rule from then on |
| NewRemoteBurst.NothingHeard | arduino/libraries/NewRemoteSwitch/NewRemoteReceiver.cpp:90-107 | a receiver whose filter takes the high pulses for glitches loses every edge of the burst |
| NewRemoteBurst.SilenceHelps | arduino/libraries/NewRemoteSwitch/NewRemoteReceiver.cpp:110-205 | after 10 ms of silence three telegrams of period 260 are called back with period 250 where the rule has none |
| NewRemoteBurst.DimNeverReceived | arduino/libraries/NewRemoteSwitch/NewRemoteReceiver.cpp:161-171 | any number of telegrams of `sendDim`, any period, address, unit and level: no callback |
| NewRemoteBurst.SendDimOverAir | arduino/libraries/NewRemoteSwitch/NewRemoteTransmitter.cpp:57-84 | the same from the sender's call to the receiver |
| NewRemoteBurst.Deliver | arduino/libraries/NewRemoteSwitch/NewRemoteReceiver.cpp:72-304 | one interrupt for each edge, over any list of edges |
| NewRemoteBurst.SendUnitOverAir | arduino/libraries/NewRemoteSwitch/NewRemoteTransmitter.cpp:39-55 | the same from the sender's call to the receiver's calls |
| NewRemoteProtocol.TelegramOnAir | arduino/libraries/NewRemoteSwitch/NewRemoteTransmitter.cpp:39-134 | what is on the pin for a telegram, pulse by pulse: start, the binary digits of the address from 25 down, group, switch, the digits of the unit from 3 down, stop, in 16-bit lengths |
| NewRemoteProtocol.DimOnAir | arduino/libraries/NewRemoteSwitch/NewRemoteTransmitter.cpp:57-84 | the same for a dim telegram, with the symbol that has no long pulse and the digits of the level |
| NewRemoteProtocol.RepeatedAt | arduino/libraries/NewRemoteSwitch/NewRemoteTransmitter.cpp:39-55 | repeated telegrams follow each other without a pause |
| NewRemoteProtocol.TelegramMeans | arduino/libraries/NewRemoteSwitch/NewRemoteReceiver.cpp:110-302 | the grammar in numbers: which pulse lengths are a telegram, and which binary digits they spell, exactly |
| NewRemoteProtocol.DimBodyMeans | arduino/libraries/NewRemoteSwitch/NewRemoteTransmitter.cpp:57-84 | and what a dim telegram is, exactly |
| NewRemoteProtocol.SynchronisesAbove | arduino/libraries/NewRemoteSwitch/NewRemoteReceiver.cpp:110-127 | a waiting decoder synchronises exactly on what is longer than 4800, and the thresholds it then has |
| NewRemoteProtocol.EdgeMeans | arduino/libraries/NewRemoteSwitch/NewRemoteReceiver.cpp:72-107 | an edge is ignored, skipped, starts a skip or feeds the decoder: when, in 32-bit time |
| NewRemoteProtocol.BurstRule | arduino/libraries/NewRemoteSwitch/NewRemoteReceiver.cpp:72-304 | after pulse and silence of at most 4800, n telegrams are called back (n - 1) / (max(1, minRepeats) + 1) times with the code sent if the period is 121 to 819, and never otherwise |
| IrSignal.SamplesAreBlocks | arduino/libraries/IRremote2/IRremote2.cpp:789-795 | whatever the phase of the ticks, every width is seen for its number of ticks, give or take less than one |
| IrSampler.EveryRunIsRecorded | arduino/libraries/IRremote2/IRremote2.cpp:789-859 | for every tick sequence: rawlen within the buffer, odd while timing a mark and even while timing a space, the first entry the ticks since the last mark before the accepted gap, modulo 2^16, and the others exactly the run lengths since |
| IrSampler.ElapsedTicks | arduino/libraries/IRremote2/IRremote2.cpp:789-845 | a receiver that is idle or stopped has on its timer the ticks since the last mark, modulo 2^16, and a stopped one keeps its recording |
| IrSampler.CaptureHolds | arduino/libraries/IRremote2/IRremote2.cpp:789-845 | a signal after a gap and before a silence is recorded run for run, and the recording stops there |
| IrSampler.GapDecides | arduino/libraries/IRremote2/IRremote2.cpp:798-815 | a mark starts a recording exactly if the 16-bit timer has reached 100 ticks since the last one |
| IrSampler.SpaceDecides | arduino/libraries/IRremote2/IRremote2.cpp:823-841 | a space ends it exactly if it goes on for more than 100 further ticks |
| IrSampler.FullDecides | arduino/libraries/IRremote2/IRremote2.cpp:795-841 | a buffer of 100 entries ends it too; until then every change of level is an entry |
| IrSampler.IrParams.TimerInterrupt | arduino/libraries/IRremote2/IRremote2.cpp:789-845 | one tick of the state machine |
| IrSampler.IrParams.RecordTimer | arduino/libraries/IRremote2/IRremote2.cpp:810-830 | the time since the last change is the next entry |
| IrSampler.IrParams.Resume | arduino/libraries/IRremote2/IRremote2.cpp:856-859 | forgets the recording and nothing else |
| IrCapture.FrameIsRecorded | arduino/libraries/IRremote2/IRremote2.cpp:789-845 | any well-spaced frame, for every phase of the ticks and any sensor lag from 50 to 150 microseconds, which may differ from mark to mark: what is recorded is its widths up to the last mark, within a tick |
| IrCapture.MarkMatches | arduino/libraries/IRremote2/IRremote2.cpp:73-81 | a recorded mark is within the window for its own width |
| IrCapture.SpaceMatches | arduino/libraries/IRremote2/IRremote2.cpp:73-81 | and so is a space |
| IrCapture.ShorterSpace | arduino/libraries/IRremote2/IRremoteInt2.h:217-226 | how much longer a space must be for a shorter one not to pass for it |
| IrDecoders.LevelAdvances | arduino/libraries/IRremote2/IRremote2.cpp:1180-1217 | every level taken moves (offset, used) on, an entry gives three at most, and nothing moves after the end |
| IrDecoders.GetRClevel | arduino/libraries/IRremote2/IRremote2.cpp:1180-1217 | one level, and the position after it |
| IrDecoders.RcBitAdvances | arduino/libraries/IRremote2/IRremote2.cpp:1230-1245 | a bit moves the position on: why the loops of RC5 and RC6 end |
| IrDecoders.ReadDistanceBits | arduino/libraries/IRremote2/IRremote2.cpp:966-984 | the loop over pulse distances, shared by the decoders that repeat it |
| IrDecoders.ReadWidthBits | arduino/libraries/IRremote2/IRremote2.cpp:1013-1030 | the loop over pulse widths, which ends at the first other space |
| IrDecoders.ReadRcBit | arduino/libraries/IRremote2/IRremote2.cpp:1275-1286 | two levels that differ, or four that agree pairwise |
| IrDecoders.ReadRcBits | arduino/libraries/IRremote2/IRremote2.cpp:1230-1245 | the bit loop, up to the end of the recording |
| IrDecoders.DecodeNEC | arduino/libraries/IRremote2/IRremote2.cpp:944-990 | NEC on a recording, with its repeat |
| IrDecoders.DecodeSony | arduino/libraries/IRremote2/IRremote2.cpp:992-1041 | Sony's, with the gap test and the type that is not its own |
| IrDecoders.DecodeSanyo | arduino/libraries/IRremote2/IRremote2.cpp:1046-1106 | Sanyo on a recording: `SanyoExact` says which |
| IrDecoders.DecodeMitsubishi | arduino/libraries/IRremote2/IRremote2.cpp:1109-1170 | Mitsubishi on a recording: `MitsubishiExact` says which |
| IrDecoders.DecodeRC5 | arduino/libraries/IRremote2/IRremote2.cpp:1219-1252 | RC5 through the level reader |
| IrDecoders.DecodeRC6 | arduino/libraries/IRremote2/IRremote2.cpp:1254-1303 | RC6, with its double-width fourth bit |
| IrDecoders.DecodePanasonic | arduino/libraries/IRremote2/IRremote2.cpp:1304-1336 | 48 bits, header space measured as a mark, number of entries not looked at |
| IrDecoders.DecodeLG | arduino/libraries/IRremote2/IRremote2.cpp:1338-1380 | LG on a recording: `LgExact` says which, `LgReceived` that its frames are among them |
| IrDecoders.DecodeJVC | arduino/libraries/IRremote2/IRremote2.cpp:1383-1433 | JVC, with its repeat and stop mark |
| IrDecoders.DecodeSAMSUNG | arduino/libraries/IRremote2/IRremote2.cpp:1436-1482 | Samsung, with its repeat |
| IrDecoders.Decode | arduino/libraries/IRremote2/IRremote2.cpp:866-932 | nothing before a recording is complete; then the answer of the first decoder that has one: `FirstAnswers`, and `SanyoReceived`, `MitsubishiReceived`, `LgReceived` and the round trips for each protocol |
| IrSenders.IRsend.SendNEC | arduino/libraries/IRremote2/IRremote2.cpp:87-105 | the frame of the top bits of the word |
| IrSenders.IRsend.SendDistanceBits | arduino/libraries/IRremote2/IRremote2.cpp:92-102 | a mark and a long or short space for each bit, top one first |
| IrSenders.IRsend.SendMark | arduino/libraries/IRremote2/IRremote2.cpp:698-705 | one more mark on the line |
| IrSenders.IRsend.SendSpace | arduino/libraries/IRremote2/IRremote2.cpp:708-715 | one more space on the line |
| IrSenders.IRsend.SendSony | arduino/libraries/IRremote2/IRremote2.cpp:107-123 | the frame of the low bits of the word, with the last space |
| IrSenders.IRsend.SendRC5 | arduino/libraries/IRremote2/IRremote2.cpp:140-159 | start bits and Manchester bits, a 1 as space then mark |
| IrSenders.IRsend.SendRC6 | arduino/libraries/IRremote2/IRremote2.cpp:162-191 | header, start bit and Manchester bits the other way round, the fourth twice as wide |
| IrSenders.IRsend.SendPanasonic | arduino/libraries/IRremote2/IRremote2.cpp:192-218 | address and data as one row of 48 bits |
| IrSenders.IRsend.SendJVC | arduino/libraries/IRremote2/IRremote2.cpp:655-676 | with the header, or without it for a repeat |
| IrSenders.IRsend.SendSAMSUNG | arduino/libraries/IRremote2/IRremote2.cpp:678-696 | the frame of the top bits of the word |
| IrWords.LowBitsReceived | arduino/libraries/IRremote2/IRremote2.cpp:107-123 | shifted to the top, sent, and shifted together again, the low n bits of a word are that word modulo 2^n |
| IrWords.AddressAndWordReceived | arduino/libraries/IRremote2/IRremote2.cpp:192-218 | 16 bits and 32 bits come together in 64 without loss |
| IrDistance.DistanceFrameWidths | arduino/libraries/IRremote2/IRremote2.cpp:87-105 | marks and spaces of a pulse-distance frame do not merge, so each bit is two widths |
| IrDistance.DistanceRead | arduino/libraries/IRremote2/IRremote2.cpp:944-990 | a decoder with a separable timing reads back the bits sent, from any recording |
| IrDistance.SonyRead | arduino/libraries/IRremote2/IRremote2.cpp:1013-1030 | and so for pulse widths, though the last space is lost in the silence |
| IrManchester.UnitsMerge | arduino/libraries/IRremote2/IRremote2.cpp:1172-1179 | neighbouring intervals of one level merge into the runs of the level stream |
| IrManchester.Rc6Widths | arduino/libraries/IRremote2/IRremote2.cpp:162-191 | an RC6 frame is its header and the runs of its levels, the wide bit being two intervals each |
| IrManchester.Rc5Runs | arduino/libraries/IRremote2/IRremote2.cpp:140-159 | no RC5 run is longer than two intervals, and each bit adds one run, or two if it repeats the bit before |
| IrManchester.Rc6Runs | arduino/libraries/IRremote2/IRremote2.cpp:162-191 | no RC6 run is longer than three, the most the reader can tell apart, and their number likewise |
| IrManchester.LevelAt | arduino/libraries/IRremote2/IRremote2.cpp:1172-1217 | successive level calls give exactly the levels that the runs encode, then space for ever |
| IrRc.BitsRead | arduino/libraries/IRremote2/IRremote2.cpp:1230-1251 | the bit loop reads back every bit that went into the level stream and stops there, though trailing space is missing |
| IrRc.Rc5Read | arduino/libraries/IRremote2/IRremote2.cpp:1219-1252 | RC5 decodes a recording of its frame exactly if there are 13 entries |
| IrRc.Rc6Read | arduino/libraries/IRremote2/IRremote2.cpp:1254-1303 | RC6 decodes every recording of its frame |
| IrRc.Rc5EntriesBounds | arduino/libraries/IRremote2/IRremote2.cpp:1219-1224 | a word of n bits gives n + 3 to 2n + 4 entries: four bits are never enough for the 13 asked for, ten always are |
| IrRc.Rc5DependsOnWord | arduino/libraries/IRremote2/IRremote2.cpp:1219-1224 | for five to nine bits it depends on the word: all ones come back, alternating bits do not |
| IrDispatch.ShortGap | arduino/libraries/IRremote2/IRremote2.cpp:1002-1008 | anything of 26 entries that NEC (and, from 500 ticks, Sony) does not claim is a Sanyo repeat after a gap below 800 |
| IrDispatch.NecRoundTrip | arduino/libraries/IRremote2/IRremote2.cpp:866-990 | every word sent as NEC is decoded as NEC with that word |
| IrDispatch.SamsungRoundTrip | arduino/libraries/IRremote2/IRremote2.cpp:866-941 | every word sent as Samsung comes back as Samsung from a gap of 800 ticks, as a Sanyo repeat below |
| IrDispatch.JvcRoundTrip | arduino/libraries/IRremote2/IRremote2.cpp:866-941 | 16 bits of JVC likewise, though its header fits NEC and LG |
| IrDispatch.PanasonicRoundTrip | arduino/libraries/IRremote2/IRremote2.cpp:866-941 | address and data of Panasonic likewise, in a recording that fills the buffer |
| IrDispatch.SonyRoundTrip | arduino/libraries/IRremote2/IRremote2.cpp:866-1041 | Sony with 12 to 32 bits, exactly from a gap of 500 ticks; with fewer bits nothing is labelled Sony |
| IrDispatch.Rc5RoundTrip | arduino/libraries/IRremote2/IRremote2.cpp:866-941 | RC5 comes back with its bits exactly if the word gives 13 entries, and fewer than 26 of them or the gap is 800 ticks; the entries are counted from the bits to be sent, and are those of the recording |
| IrDispatch.Rc6RoundTrip | arduino/libraries/IRremote2/IRremote2.cpp:866-941 | RC6 with 1 to 32 bits comes back exactly if the word gives fewer than 26 entries or the gap is 800 ticks, though its header fits Sony's and Sanyo's |
| IrDispatch.LongSilence | arduino/libraries/IRremote2/IRremote2.cpp:795-845 | the gap wraps: after a silence of 65636 to 66335 ticks it looks like one of 100 to 799 |
| IrRepeats.JvcRepeatRoundTrip | arduino/libraries/IRremote2/IRremote2.cpp:655-676 | the repeat of any 16 bits, sent without header, is decoded as a JVC repeat from a gap of 800 ticks, as a Sanyo repeat below |
| IrRepeats.RepeatRoundTrip | arduino/libraries/IRremote2/IRremote2.cpp:944-962 | a repeat code of NEC or Samsung is decoded as such after any gap |
| IrFrames.NecFrameIs | arduino/libraries/IRremote2/IRremote2.cpp:87-105 | the frame of sendNEC in microseconds, its spaces telling the binary digits of the word from 31 down |
| IrFrames.SamsungFrameIs | arduino/libraries/IRremote2/IRremote2.cpp:678-696 | likewise for Samsung |
| IrFrames.JvcFrameIs | arduino/libraries/IRremote2/IRremote2.cpp:655-676 | likewise for JVC, the low digits, with or without a header |
| IrFrames.PanasonicFrameIs | arduino/libraries/IRremote2/IRremote2.cpp:192-218 | likewise for Panasonic, one number of 48 digits with the address on top |
| IrFrames.SonyFrameIs | arduino/libraries/IRremote2/IRremote2.cpp:107-123 | likewise for Sony, whose marks tell |
| IrFrames.Rc5FrameIs | arduino/libraries/IRremote2/IRremote2.cpp:140-159 | the levels of an RC5 frame, by binary digit |
| IrFrames.Rc6FrameIs | arduino/libraries/IRremote2/IRremote2.cpp:162-191 | the levels of an RC6 frame, by binary digit, the fourth at half speed |
| IrFrames.RepeatCodesAre | arduino/libraries/IRremote2/IRremoteInt2.h:96-101 | the repeat codes of NEC and Samsung in microseconds |
| IrFrames.LgReceived | arduino/libraries/IRremote2/IRremote2.cpp:1338-1380 | every LG frame of 28 bits, written out in microseconds, at every usual lag and phase: after a gap of 800 ticks it is decoded as LG with its word, after less it is taken for a repeat of Sanyo's |
| IrExact.Windows | arduino/libraries/IRremote2/IRremoteInt2.h:218-226 | which tick counts match a mark and a space of a given length |
| IrExact.NecExact | arduino/libraries/IRremote2/IRremote2.cpp:944-990 | for every recording, exactly which answers NEC gives and when |
| IrExact.SamsungExact | arduino/libraries/IRremote2/IRremote2.cpp:1436-1482 | the same for Samsung |
| IrExact.LgExact | arduino/libraries/IRremote2/IRremote2.cpp:1338-1380 | the same for LG |
| IrExact.JvcExact | arduino/libraries/IRremote2/IRremote2.cpp:1383-1433 | the same for JVC, whose repeat is anything of 34 entries between two bit marks |
| IrExact.PanasonicExact | arduino/libraries/IRremote2/IRremote2.cpp:1304-1336 | the same for Panasonic: the 48 digits are those of address and data |
| IrExact.SonyExact | arduino/libraries/IRremote2/IRremote2.cpp:992-1041 | the same for Sony: as many bits as fit, of which 32 digits are kept |
| IrExact.SanyoExact | arduino/libraries/IRremote2/IRremote2.cpp:1046-1106 | the same for Sanyo |
| IrExact.MitsubishiExact | arduino/libraries/IRremote2/IRremote2.cpp:1109-1170 | the same for Mitsubishi, whose spaces tell |
| IrExact.FirstAnswers | arduino/libraries/IRremote2/IRremote2.cpp:866-932 | the ten decoders in their order: the first that has an answer gives it |
| IrExact.CodesAreLabelled | arduino/libraries/IRremote2/IRremote2.cpp:866-932 | a code that is no repeat comes from the decoder whose type it carries |
| IrExact.SanyoReceived | arduino/libraries/IRremote2/IRremote2.cpp:866-1106 | decode gives a code of type Sanyo exactly for recordings with a gap of 800 ticks, two header entries and at least eleven pairs, which it counts as one more |
| IrExact.MitsubishiReceived | arduino/libraries/IRremote2/IRremote2.cpp:866-1170 | decode gives a code of type Mitsubishi exactly for recordings with a gap of 800 ticks, a first mark of 350 and at least 16 bits |
| IrExact.TypicalMitsubishiRefused | arduino/libraries/IRremote2/IRremote2.cpp:1134-1135 | the recording that the decoder itself calls typical is no code to any of the ten |
| IrLevels.Rc5Windows | arduino/libraries/IRremote2/IRremote2.cpp:1188-1202 | which tick counts are one, two or three intervals of RC5 |
| IrLevels.Rc6Windows | arduino/libraries/IRremote2/IRremote2.cpp:1188-1202 | and of RC6 |
| IrLevels.Rc5Exact | arduino/libraries/IRremote2/IRremote2.cpp:1219-1252 | for every recording: RC5 accepts exactly the recordings of its frames of 13 entries or more, a last space present or not, and the number is the one they spell |
| IrLevels.Rc6Exact | arduino/libraries/IRremote2/IRremote2.cpp:1254-1303 | and RC6 exactly those of its own frames |
| IrRemote.Listen | arduino/libraries/IRremote2/IRremote2.cpp:789-845 | the interrupt, tick after tick |
| IrRemote.Receive | arduino/libraries/IRremote2/IRremote2.cpp:866-932 | a whole line, sensed, sampled and decoded |
| IrRemote.RemoteNEC | arduino/libraries/IRremote2/IRremote2.cpp:87-105 | from sendNEC to decode |
| IrRemote.RemoteJVCRepeat | arduino/libraries/IRremote2/IRremote2.cpp:655-676 | from sendJVC with the repeat flag to decode |
| IrRemote.RemoteRC5 | arduino/libraries/IRremote2/IRremote2.cpp:140-159 | from sendRC5 to decode, with the condition on the word |
| IrRemote.RemoteRC6 | arduino/libraries/IRremote2/IRremote2.cpp:162-191 | from sendRC6 to decode, with the condition on the word |
| Hd44780.Resynchronises | arduino/libraries/NewliquidCrystal/LCD.cpp:104-125 | the half bytes 3, 3, 3, 2 take a controller in any state to the beginning of a byte on four lines |
| Hd44780.OneHalf | arduino/libraries/NewliquidCrystal/LCD.cpp:104-125 | while eight lines are expected every strobe is a command of its own, and only 2 on the command register makes four of them |
| Hd44780.OneByte | arduino/libraries/NewliquidCrystal/LCD.cpp:356-371 | an aligned controller hears both halves as one byte with its register, and stays aligned unless asked for eight lines |
| Hd44780.MessagesWhole | arduino/libraries/NewliquidCrystal/LCD.cpp:356-371 | any list of bytes is received whole exactly if no command before the last is 0x30 to 0x3F |
| Hd44780.SessionWhole | arduino/libraries/NewliquidCrystal/LCD.cpp:104-371 | any controller state, the initialisation by any driver and then any calls, backlight among them: every byte is received whole, exactly if no command before the last is 0x30 to 0x3F |
| Hd44780.DeliveredIsMessages | arduino/libraries/NewliquidCrystal/LCD.cpp:356-371 | the strobes that drivers deliver for whole bytes are those of the bytes, one after the other |
| Lcd.CursorsDistinct | arduino/libraries/NewliquidCrystal/LCD.cpp:180-201 | different cursor positions of a real geometry are different addresses, all of which exist |
| Lcd.CursorAddressIs | arduino/libraries/NewliquidCrystal/LCD.cpp:180-201 | the address of every row: 0x00, 0x40, then 0x14 and 0x54, or 0x10 and 0x50 on a display of 16 columns and four lines |
| Lcd.CharacterIs | arduino/libraries/NewliquidCrystal/LCD.cpp:294-306 | the command for a character is 0x40 and eight for each of the eight |
| Lcd.FunctionBytes | arduino/libraries/NewliquidCrystal/LCD.cpp:81-94 | the function set of a fresh driver is 0x28, 0x24 or 0x20, by lines and font |
| Lcd.LCD.Begin | arduino/libraries/NewliquidCrystal/LCD.cpp:79-163 | from any controller state, the initialisation and then exactly function set, 0x0C, 0x01 and 0x06 arrive whole, where a fresh driver sends 0x28 for two lines, 0x24 for one line with a larger font and 0x20 otherwise; driver and controller are in step |
| Lcd.LCD.FourBitInit | arduino/libraries/NewliquidCrystal/LCD.cpp:104-125 | the four half bytes, one by one |
| Lcd.LCD.SetUp | arduino/libraries/NewliquidCrystal/LCD.cpp:144-160 | function set, 0x0C, 0x01 and the entry mode arrive whole, in this order |
| Lcd.LCD.Clear | arduino/libraries/NewliquidCrystal/LCD.cpp:168-172 | 0x01 arrives |
| Lcd.LCD.Home | arduino/libraries/NewliquidCrystal/LCD.cpp:174-178 | 0x02 arrives |
| Lcd.LCD.Command | arduino/libraries/NewliquidCrystal/LCD.cpp:356-359 | any command byte arrives whole, and the state it leaves |
| Lcd.LCD.Write | arduino/libraries/NewliquidCrystal/LCD.cpp:362-371 | any data byte arrives whole as data |
| Lcd.LCD.SetCursor | arduino/libraries/NewliquidCrystal/LCD.cpp:180-201 | one address command, rows past the last standing for the last |
| Lcd.LCD.Display | arduino/libraries/NewliquidCrystal/LCD.cpp:210-214 | the controller's flags and the driver's are the same afterwards, on or off as asked, the others kept |
| Lcd.LCD.NoDisplay | arduino/libraries/NewliquidCrystal/LCD.cpp:204-208 | likewise off |
| Lcd.LCD.Cursor | arduino/libraries/NewliquidCrystal/LCD.cpp:222-226 | likewise for the cursor |
| Lcd.LCD.SendDisplayControl | arduino/libraries/NewliquidCrystal/LCD.cpp:204-239 | the controller is told the flags as the driver has them |
| Lcd.LCD.NoCursor | arduino/libraries/NewliquidCrystal/LCD.cpp:217-221 | likewise for the cursor |
| Lcd.LCD.Blink | arduino/libraries/NewliquidCrystal/LCD.cpp:235-239 | likewise for blinking |
| Lcd.LCD.NoBlink | arduino/libraries/NewliquidCrystal/LCD.cpp:229-233 | likewise off |
| Lcd.LCD.SetEntryMode | arduino/libraries/NewliquidCrystal/LCD.cpp:253-291 | one flag of the entry mode changes, and the controller is told |
| Lcd.LCD.Shift | arduino/libraries/NewliquidCrystal/LCD.cpp:242-277 | one shift command, which is neither a mode nor a display command |
| Lcd.LCD.ScrollDisplayLeft | arduino/libraries/NewliquidCrystal/LCD.cpp:242-245 | 0x18 |
| Lcd.LCD.ScrollDisplayRight | arduino/libraries/NewliquidCrystal/LCD.cpp:247-250 | 0x1C |
| Lcd.LCD.MoveCursorRight | arduino/libraries/NewliquidCrystal/LCD.cpp:267-271 | 0x14 |
| Lcd.LCD.MoveCursorLeft | arduino/libraries/NewliquidCrystal/LCD.cpp:273-277 | 0x10 |
| Lcd.LCD.LeftToRight | arduino/libraries/NewliquidCrystal/LCD.cpp:253-257 | sets 0x02 of the entry mode, keeps the other flag, and the controller is told |
| Lcd.LCD.RightToLeft | arduino/libraries/NewliquidCrystal/LCD.cpp:260-264 | clears 0x02 likewise |
| Lcd.LCD.Autoscroll | arduino/libraries/NewliquidCrystal/LCD.cpp:280-284 | sets 0x01 likewise |
| Lcd.LCD.NoAutoscroll | arduino/libraries/NewliquidCrystal/LCD.cpp:287-291 | clears 0x01 likewise |
| Lcd.LCD.On | arduino/libraries/NewliquidCrystal/LCD.cpp:340-344 | display flag set and full backlight |
| Lcd.LCD.Off | arduino/libraries/NewliquidCrystal/LCD.cpp:348-352 | display flag cleared and backlight off |
| Lcd.LCD.CreateChar | arduino/libraries/NewliquidCrystal/LCD.cpp:294-306 | an address command for one of eight characters, then its eight rows as data |
| Lcd.LCD.WriteRows | arduino/libraries/NewliquidCrystal/LCD.cpp:301-305 | eight data bytes, in order |
| Lcd.LCD.Backlight | arduino/libraries/NewliquidCrystal/LCD.cpp:326-329 | full level, and nothing the controller hears |
| Lcd.LCD.NoBacklight | arduino/libraries/NewliquidCrystal/LCD.cpp:333-336 | level 0, and nothing the controller hears |
| LcdWiring.DistinctPins | arduino/libraries/NewliquidCrystal/LiquidCrystal_I2C.cpp:213-231 | different pin numbers give masks that share no output |
| LcdWiring.DefaultPins | arduino/libraries/NewliquidCrystal/LiquidCrystal_I2C.cpp:66-91 | the default pins are different, exactly if the backlight has an output of its own |
| LcdWiring.MaskIsPower | arduino/libraries/NewliquidCrystal/LiquidCrystal_I2C.cpp:213-231 | pin number p is the output worth 2^p, and there are eight of them |
| LcdWiring.PortLines | arduino/libraries/NewliquidCrystal/LiquidCrystal_I2C.cpp:259-284 | line by line: the lowest bit of the nibble on D4, the highest on D7, register select as asked, Enable and Read/Write low |
| LcdWiring.MappedIsSampled | arduino/libraries/NewliquidCrystal/LiquidCrystal_I2C.cpp:259-290 | through any pin map with distinct outputs the display sees the nibble and register that were sent, as a write, whatever the backlight |
| LcdWiring.MapNibble | arduino/libraries/NewliquidCrystal/LiquidCrystal_I2C.cpp:259-272 | the loop over the data pins |
| LcdParallel.LiquidCrystal.Send | arduino/libraries/NewliquidCrystal/LiquidCrystal.cpp:122-151 | strobes the two nibbles, or the one, with the register line |
| LcdParallel.LiquidCrystal.WriteNbits | arduino/libraries/NewliquidCrystal/LiquidCrystal.cpp:290-309 | one strobe, with the data pins as the nibble says |
| LcdParallel.LiquidCrystal.constructor | arduino/libraries/NewliquidCrystal/LiquidCrystal.cpp:217-286 | Enable is low afterwards; exactly if it was high, the display is strobed once |
| LcdParallel.LiquidCrystal.SetBacklightPin | arduino/libraries/NewliquidCrystal/LiquidCrystal.cpp:155-161 | a pin of its own, switched off without a strobe |
| LcdParallel.LiquidCrystal.SetBacklight | arduino/libraries/NewliquidCrystal/LiquidCrystal.cpp:165-210 | dims or switches the backlight pin, and strobes nothing |
| LcdParallel.LiquidCrystal.Perform | arduino/libraries/NewliquidCrystal/LiquidCrystal.cpp:122-210 | any sequence of calls strobes what those calls have to deliver |
| LcdParallel.ApartMeans | arduino/libraries/NewliquidCrystal/LiquidCrystal.cpp:217-286 | the wirings allowed: seven different pins, of which only Read/Write may have the number 255, for tied low |
| LcdExpander.I2CIO.Write | arduino/libraries/NewliquidCrystal/I2CIO.cpp:140-158 | drives the outputs only, and only if the device was found |
| LcdExpander.I2CIO.Begin | arduino/libraries/NewliquidCrystal/I2CIO.cpp:65-82 | initialised exactly if the device answers |
| LcdExpander.I2CIO.constructor | arduino/libraries/NewliquidCrystal/I2CIO.cpp:51-57 | all inputs, and not initialised |
| LcdExpander.I2CIO.PortMode | arduino/libraries/NewliquidCrystal/I2CIO.cpp:103-117 | all outputs or all inputs |
| LcdExpander.LiquidCrystal_I2C.Init | arduino/libraries/NewliquidCrystal/LiquidCrystal_I2C.cpp:194-208 | leaves Enable low; exactly when the expander had it high, one strobe more |
| LcdExpander.LiquidCrystal_I2C.Send | arduino/libraries/NewliquidCrystal/LiquidCrystal_I2C.cpp:240-255 | strobes the nibbles of the call, nothing if there is no expander |
| LcdExpander.LiquidCrystal_I2C.Write4Bits | arduino/libraries/NewliquidCrystal/LiquidCrystal_I2C.cpp:259-284 | one strobe of the nibble through the pin map, with the backlight as it is |
| LcdExpander.LiquidCrystal_I2C.SetBacklightPin | arduino/libraries/NewliquidCrystal/LiquidCrystal_I2C.cpp:158-163 | the backlight output, switched off without a strobe |
| LcdExpander.LiquidCrystal_I2C.constructor | arduino/libraries/NewliquidCrystal/LiquidCrystal_I2C.cpp:213-231 | different pins make a valid map |
| LcdExpander.LiquidCrystal_I2C.PulseEnable | arduino/libraries/NewliquidCrystal/LiquidCrystal_I2C.cpp:287-290 | two writes, one falling edge |
| LcdExpander.LiquidCrystal_I2C.SetBacklight | arduino/libraries/NewliquidCrystal/LiquidCrystal_I2C.cpp:167-187 | sets the backlight output by polarity, and strobes nothing |
| LcdExpander.LiquidCrystal_I2C.Perform | arduino/libraries/NewliquidCrystal/LiquidCrystal_I2C.cpp:167-290 | any sequence of calls strobes what those calls have to deliver |
| LcdShiftRegister.EightShifts | arduino/libraries/NewliquidCrystal/FastIO.cpp:137-154 | eight shifts replace the register whatever was in it |
| LcdShiftRegister.TopStaysLow | arduino/libraries/NewliquidCrystal/FastIO.cpp:137-154 | a cleared register keeps its top output low until the last of eight shifts |
| LcdShiftRegister.RegisterSeen | arduino/libraries/NewliquidCrystal/LiquidCrystal_SR.cpp:172-198 | which output the display reads as which data line, and as register select |
| LcdShiftRegister.RegisterLines | arduino/libraries/NewliquidCrystal/LiquidCrystal_SR.cpp:172-198 | which output of the register carries which bit of the nibble, and register select |
| LcdShiftRegister.ShiftOut | arduino/libraries/NewliquidCrystal/FastIO.cpp:108-156 | the byte is in the register, and Enable has not fallen |
| LcdShiftRegister.ShiftBit | arduino/libraries/NewliquidCrystal/FastIO.cpp:141-152 | one bit goes in at the bottom, and Enable has not fallen |
| LcdShiftRegister.ShiftOutZeros | arduino/libraries/NewliquidCrystal/FastIO.cpp:159-173 | the register is clear; Enable falls only if the data line was left high under a high top output |
| LcdShiftRegister.LoadTwoWires | arduino/libraries/NewliquidCrystal/LiquidCrystal_SR2W.cpp:64-81 | for any prior register contents: exactly one strobe, of the byte loaded, if its top bit is set, and none if it is clear, whatever bit 0 |
| LcdShiftRegister.LiquidCrystal_SR2W.Send | arduino/libraries/NewliquidCrystal/LiquidCrystal_SR2W.cpp:90-113 | strobes the nibbles of the call over two wires |
| LcdShiftRegister.LiquidCrystal_SR2W.SetBacklight | arduino/libraries/NewliquidCrystal/LiquidCrystal_SR2W.cpp:117-135 | loads the backlight bit and strobes nothing |
| LcdShiftRegister.LiquidCrystal_SR2W.constructor | arduino/libraries/NewliquidCrystal/LiquidCrystal_SR2W.cpp:48-60 | pulls the lines low, whatever they were, and switches the backlight on; the display is strobed exactly if Enable was high |
| LcdShiftRegister.LiquidCrystal_SR2W.Perform | arduino/libraries/NewliquidCrystal/LiquidCrystal_SR2W.cpp:64-135 | any sequence of calls strobes what those calls have to deliver |
| LcdShiftRegister.LiquidCrystal_SR.ShiftIt | arduino/libraries/NewliquidCrystal/LiquidCrystal_SR.cpp:141-164 | one strobe of the byte, over two wires or three |
| LcdShiftRegister.LiquidCrystal_SR.Send | arduino/libraries/NewliquidCrystal/LiquidCrystal_SR.cpp:172-198 | strobes the nibbles of the call |
| LcdShiftRegister.LiquidCrystal_SR.SetBacklight | arduino/libraries/NewliquidCrystal/LiquidCrystal_SR.cpp:207-208 | does nothing |
| LcdShiftRegister.LiquidCrystal_SR.constructor | arduino/libraries/NewliquidCrystal/LiquidCrystal_SR.cpp:110-137 | over two wires Enable is the data line, over three a wire of its own; the lines are pulled low, which strobes the display exactly if Enable was high |
| LcdShiftRegister.LiquidCrystal_SR.Perform | arduino/libraries/NewliquidCrystal/LiquidCrystal_SR.cpp:141-209 | any sequence of calls strobes what those calls have to deliver |
| LcdShiftRegister.LiquidCrystal_SR3W.LoadSR | arduino/libraries/NewliquidCrystal/LiquidCrystal_SR3W.cpp:272-283 | the latch changes at once, so Enable falls exactly between a byte that has it and one that does not |
| LcdShiftRegister.LiquidCrystal_SR3W.Send | arduino/libraries/NewliquidCrystal/LiquidCrystal_SR3W.cpp:162-180 | strobes the nibbles of the call, whatever was in the latch |
| LcdShiftRegister.LiquidCrystal_SR3W.SetBacklightPin | arduino/libraries/NewliquidCrystal/LiquidCrystal_SR3W.cpp:183-189 | the backlight output, switched off; Enable falls only if the latch had it high before |
| LcdShiftRegister.LiquidCrystal_SR3W.constructor | arduino/libraries/NewliquidCrystal/LiquidCrystal_SR3W.cpp:216-245 | different pins make a valid map; the lines are pulled low without a strobe, and what the latch holds does not matter |
| LcdShiftRegister.LiquidCrystal_SR3W.Write4Bits | arduino/libraries/NewliquidCrystal/LiquidCrystal_SR3W.cpp:247-270 | two loads, one strobe, the nibble through the pin map, whatever was in the latch |
| LcdShiftRegister.LiquidCrystal_SR3W.SetBacklight | arduino/libraries/NewliquidCrystal/LiquidCrystal_SR3W.cpp:191-210 | sets the backlight output, and strobes nothing between calls |
| LcdShiftRegister.LiquidCrystal_SR3W.Perform | arduino/libraries/NewliquidCrystal/LiquidCrystal_SR3W.cpp:162-283 | any sequence of calls strobes what those calls have to deliver |
| LcdTransports.AllAgree | arduino/libraries/NewliquidCrystal/LiquidCrystal.cpp:122-151 | the same calls on all five drivers leave the same log of strobes |
| LcdTransports.Follow | arduino/libraries/NewliquidCrystal/LCD.cpp:79-371 | whatever is done through the driver's own methods, a controller behind any of the five wires ends up in the state that the driver's contracts speak of |
| LcdTransports.BeginOnAll | arduino/libraries/NewliquidCrystal/LCD.cpp:79-163 | starting a display, through any of the five, from any state of its controller: in step, and the setup commands received whole |
| Firmata.FirmataClass.DecodeString | arduino/libraries/Firmata/Firmata.cpp:243-254 | the in-place loop decodes every character from the message as it came in: nothing is overwritten unread |
| Firmata.FirmataClass.ProcessSysexMessage | arduino/libraries/Firmata/Firmata.cpp:235-267 | the call for a completed sysex message, with the terminator as the code decides it, and the number of data bytes as a byte holds it |
| Firmata.FirmataClass.Parse | arduino/libraries/Firmata/Firmata.cpp:285-371 | one byte of the parser; `waitForData` stays in 0 to 2 |
| Firmata.FirmataClass.ExecuteCommand | arduino/libraries/Firmata/Firmata.cpp:314-352 | the call for a message whose data bytes are in |
| Firmata.FirmataClass.ParseCommand | arduino/libraries/Firmata/Firmata.cpp:353-371 | a command, or a stray byte, in any state outside a sysex message |
| Firmata.FirmataClass.SystemReset | arduino/libraries/Firmata/Firmata.cpp:629-647 | every field and all 64 bytes as new, and the callback |
| Firmata.FirmataClass.constructor | arduino/libraries/Firmata/Firmata.cpp:64-69 | as after a reset, but no callback is attached yet |
| Firmata.FirmataClass.SendAnalog | arduino/libraries/Firmata/Firmata.cpp:394-399 | three bytes, pin and value cut to 4 and 14 bits |
| Firmata.FirmataClass.SendDigitalPort | arduino/libraries/Firmata/Firmata.cpp:435-440 | three bytes, the last one not cut |
| Firmata.FirmataClass.SendSysex | arduino/libraries/Firmata/Firmata.cpp:449-458 | start, command, every byte packed into two, end |
| Firmata.FirmataClass.SendString | arduino/libraries/Firmata/Firmata.cpp:465-479 | a string as sysex message 0x71, up to its first null, and of that its length modulo 256 |
| Firmata.FirmataClass.SendValueAsTwo7bitBytes | arduino/libraries/Firmata/Firmata.cpp:34-38 | the low seven bits and the seven above, of a negative value too |
| FirmataLink.ChannelMessageParsed | arduino/libraries/Firmata/Firmata.cpp:300-371 | from any state outside a sysex message a complete channel message is delivered and leaves the parser idle |
| FirmataLink.Resynchronises | arduino/libraries/Firmata/Firmata.cpp:300-371 | also after any garbage that does not start a sysex message |
| FirmataLink.AnalogRoundTrip | arduino/libraries/Firmata/Firmata.cpp:394-399 | pin modulo 16 and value modulo 2^14 arrive, for every value |
| FirmataLink.DigitalRoundTrip | arduino/libraries/Firmata/Firmata.cpp:435-440 | port modulo 16 and value modulo 2^14 arrive exactly if bit 14 of the value is clear |
| FirmataLink.StringRoundTrip | arduino/libraries/Firmata/Firmata.cpp:243-260 | 1 to 31 characters arrive up to the first null, so identically exactly if there is none; 32 do not fit |
| FirmataLink.EmptyStringRoundTrip | arduino/libraries/Firmata/Firmata.cpp:255-260 | the empty string arrives exactly if the byte in front of the buffer is not zero |
| FirmataLink.SysexRoundTrip | arduino/libraries/Firmata/Firmata.cpp:262-299 | any other message of up to 63 bytes after its command is called back with those bytes and their number; an empty one with the number 255 |
| FirmataLink.MessagesRoundTrip | arduino/libraries/Firmata/Firmata.cpp:285-371 | any list of messages, sent to an idle parser, is called back one for one in order and leaves it idle |
| FirmataLink.Print | arduino/libraries/Firmata/Firmata.cpp:394-479 | a list of messages printed one after the other |
| FirmataLink.ParseAll | arduino/libraries/Firmata/Firmata.cpp:273-371 | a list of bytes parsed one after the other |
| FirmataLink.Transfer | arduino/libraries/Firmata/Firmata.cpp:285-371 | the same from printing to parsing |
| FirmataProtocol.CommandByte | arduino/libraries/Firmata/Firmata.cpp:353-371 | outside a sysex message, for every parser and every byte that is not awaited data: what it makes of it, value by value, among them 0xF9, the version, and 0xFF, the reset |
| FirmataProtocol.DataByte | arduino/libraries/Firmata/Firmata.cpp:285-312 | where awaited bytes go: sysex bytes from the front, channel data with the last one in front |
| FirmataProtocol.ChannelMessages | arduino/libraries/Firmata/Firmata.cpp:300-371 | in any state outside a sysex message, what each channel message and pin message is, byte by byte, and the one call that it makes |
| FirmataProtocol.Queries | arduino/libraries/Firmata/Firmata.cpp:235-371 | 0xF9 calls for the version and changes nothing; 0xFF resets all 64 bytes and every field; F0 79 F7 calls for the firmware |
| FirmataProtocol.PackedIs | arduino/libraries/Firmata/Firmata.cpp:449-458 | every byte becomes its low seven bits and the one above them |
| FirmataProtocol.StringMessages | arduino/libraries/Firmata/Firmata.cpp:243-260 | a string of 1 to 31 characters on the wire, and the call that it makes |
| FirmataProtocol.StringOnWire | arduino/libraries/Firmata/Firmata.cpp:465-479 | of a longer one, as many characters go out as its length modulo 256 |
| NeoPixel.ScaledBound | arduino/libraries/Adafruit_NeoPixel/Adafruit_NeoPixel.cpp:912-925 | a stored byte is at most the brightness |
| NeoPixel.SetThenGet | arduino/libraries/Adafruit_NeoPixel/Adafruit_NeoPixel.cpp:953-972 | a colour comes back as at most what was set, with b * (r - got) < 256 + b, and exactly without scaling: in a wide int always, in one of 16 bits whenever the stored value scales up |
| NeoPixel.GetThenSet | arduino/libraries/Adafruit_NeoPixel/Adafruit_NeoPixel.cpp:912-972 | reading and setting again lowers a stored byte by one at most, under the same condition |
| NeoPixel.NarrowRestores | arduino/libraries/Adafruit_NeoPixel/Adafruit_NeoPixel.cpp:964-971 | a 16-bit int scales up to the same byte exactly below 128, or unscaled, or at stored brightness 255 |
| NeoPixel.RescaledBound | arduino/libraries/Adafruit_NeoPixel/Adafruit_NeoPixel.cpp:1004-1018 | rescaling a byte within the old brightness does not wrap 16 bits, and is within the new one |
| NeoPixel.RescaledIsNear | arduino/libraries/Adafruit_NeoPixel/Adafruit_NeoPixel.cpp:1004-1018 | a stored byte at the old limit becomes exactly the new level, and every other one stays in proportion, less than two below |
| NeoPixel.ScaledIs | arduino/libraries/Adafruit_NeoPixel/Adafruit_NeoPixel.cpp:912-925 | a stored part of a colour is v * (level + 1) / 256, rounded down, for the brightness level in force |
| NeoPixel.RestoredIs | arduino/libraries/Adafruit_NeoPixel/Adafruit_NeoPixel.cpp:953-972 | the part read back is 256 * c / (level + 1), rounded down, wherever the int of the board scales up |
| NeoPixel.ColorUnpacks | arduino/libraries/Adafruit_NeoPixel/Adafruit_NeoPixel.cpp:928-950 | unpacking a packed colour gives its parts |
| NeoPixel.Adafruit_NeoPixel.SetPixelColor | arduino/libraries/Adafruit_NeoPixel/Adafruit_NeoPixel.cpp:912-925 | changes one pixel, each of its bytes to v * (level + 1) / 256 rounded down, and keeps every byte within the brightness |
| NeoPixel.Adafruit_NeoPixel.SetPixelColorPacked | arduino/libraries/Adafruit_NeoPixel/Adafruit_NeoPixel.cpp:928-944 | the same for a packed colour, whose upper byte is ignored |
| NeoPixel.Adafruit_NeoPixel.constructor | arduino/libraries/Adafruit_NeoPixel/Adafruit_NeoPixel.cpp:36-61 | all bytes zero, unscaled, the offsets of each of the three orders, and the byte count as 16 bits hold it |
| NeoPixel.Adafruit_NeoPixel.GetPixelColor | arduino/libraries/Adafruit_NeoPixel/Adafruit_NeoPixel.cpp:953-972 | the three bytes scaled up in the board's int, black outside the strip |
| NeoPixel.Adafruit_NeoPixel.SetBrightness | arduino/libraries/Adafruit_NeoPixel/Adafruit_NeoPixel.cpp:997-1020 | rescales every byte without wrapping; one at the old limit becomes exactly the level, the others keep their proportion to within two; the brightness is the level plus one, modulo 256 |
| NeoPixel.Adafruit_NeoPixel.GetBrightness | arduino/libraries/Adafruit_NeoPixel/Adafruit_NeoPixel.cpp:1023-1025 | the level that was set, after wrapping back |
| NeoPixel.Adafruit_NeoPixel.Clear | arduino/libraries/Adafruit_NeoPixel/Adafruit_NeoPixel.cpp:1027-1029 | all bytes zero |
| NeoPixel.SetAndGet | arduino/libraries/Adafruit_NeoPixel/Adafruit_NeoPixel.cpp:912-972 | setting and reading through the strip is near for every part of the colour that scales up, on boards of either kind, and black outside the strip |
| NewPing.SortedIsDescending | arduino/libraries/NewPing/NewPing.cpp:66-71 | inserting one by one gives a descending permutation |
| NewPing.MedianHasRank | arduino/libraries/NewPing/NewPing.cpp:56-76 | its middle element has at most half of the pings above it and more than half not below it |
| NewPing.RankUnique | arduino/libraries/NewPing/NewPing.cpp:56-76 | only one value has that rank |
| NewPing.AnsweredKeeps | arduino/libraries/NewPing/NewPing.cpp:56-76 | what is sorted is every answered ping as often as it came, and no unanswered one |
| NewPing.AboveCounts | arduino/libraries/NewPing/NewPing.cpp:56-76 | the rank is the number of pings above |
| NewPing.InsertPing | arduino/libraries/NewPing/NewPing.cpp:66-70 | the shifting loop inserts in place and touches nothing behind |
| NewPing.NewPing.PingMedian | arduino/libraries/NewPing/NewPing.cpp:56-76 | terminates after as many pings as asked for, and returns the median of those that were answered, or NO_ECHO if none was |

## Left out

- GlitchTransparent: needs the first glitch no sooner than the shortest pulse after the segment's start, as a sooner one is taken for the end of the pulse before.
- BurstReceived: a receiver that has synchronised on the silence must see a period of 47 microseconds or more, since below it even the low pulses may be filtered, and then only some of them.
- SendUnitOverAir: has the same limit, and so have DimNeverReceived and SendDimOverAir.
- StartDecides: delays are ideal and time stamps whole microseconds; the limit of `delayMicroseconds` is not modelled.
- TelegramReceived: leaves out the guard `_inCallback`, which matters only if the callback lets the handler interrupt it.
- FrameIsRecorded: senders keep their times exactly and ticks come exactly every 50 microseconds; carrier frequency and timer set-up are not part of this model.
- SonyRoundTrip: for fewer than 12 bits it says only that nothing is labelled Sony, because which other decoder may accept such a fragment is not a promise of the library.
- Rc5RoundTrip: for too few entries it says only that nothing is labelled RC5, for the same reason.
- Decode: ends before the hash of unknown codes, which compares in floating point, and the restart after it.
- Parse: every callback is attached, and a sysex message longer than the buffer is excluded, since the source writes past its end.
- ParseAll: excludes such a message, too.
- Begin: does not model the eight-line mode of the same lines, which only the parallel driver has.
- LcdParallel.LiquidCrystal.Send: leaves out the eight-line mode.
- WriteNbits: writes four bits only, for the same reason.
- LcdParallel.LiquidCrystal.constructor: sets up four lines only.
- ShiftOut: leaves out the branch for the lowest bit first, which no display driver uses.
- SetCursor: needs 1 to 4 lines, since the source reads past its table for others.
- Adafruit_NeoPixel.constructor: more pixels than a 16-bit byte count holds make a strip on which nothing else is promised, since the source then writes past the pixels; a failed allocation and writes through the pixel pointer are not modelled.
- PingMedian: pauses between pings are left out, and a count of 0 is excluded, since the source then writes to an empty array.
- Address checksums are an arbitrary predicate; the 1-Wire reset and slot timing are a method of the bus.
- `char` is signed, as on AVR: where it is not, -1 for "no junction" would be 255.
- Devices are a fixed set during a search: arrivals and departures are not modelled.
- The one-wire display driver is not modelled, nor what the controller shows.
- Senders without a decoder (HVAC, Sharp, Dish, raw).
- DallasTemperature's scratchpads and temperatures, Firmata's pin tables and version messages, and the other libraries of the repository, which would add only easy members or floating-point conversions.
