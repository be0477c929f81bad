/** The conditional 1-Wire search of DallasTemperature over a wired-AND bus. */
module AlarmSearch {
  import opened Arithmetic
  import opened Options
  import opened RomOrder
  import Sequences

  const ALARM_SEARCH: bv8 := 0xEC
  const SEARCH_ROM: bv8 := 0xF0

  /** The bit of a byte that `1 << k` selects. */
  function Mask(k: int): bv8
    requires 0 <= k < 8
  {
    if k == 0 then 0x01 else if k == 1 then 0x02 else if k == 2 then 0x04 else if k == 3 then 0x08
    else if k == 4 then 0x10 else if k == 5 then 0x20 else if k == 6 then 0x40 else 0x80
  }

  function BitOf(b: bv8, k: int): bool
    requires 0 <= k < 8
  {
    b & Mask(k) != 0
  }

  /** The address held in eight bytes. */
  function RomOf(bytes: seq<bv8>): Rom
    requires |bytes| == 8
  {
    seq(ROM_BITS, i requires 0 <= i < ROM_BITS => BitOf(bytes[i / 8], i % 8))
  }

  /** Bit `i` of an address is binary digit i % 8, counted from the lowest, of byte i / 8. */
  lemma RomDigits(bytes: seq<bv8>, i: nat)
    requires |bytes| == 8 && i < 64
    ensures |RomOf(bytes)| == 64
    ensures RomOf(bytes)[i] <==> bytes[i / 8] as int / Pow2(i % 8) % 2 == 1
  {
    BitIsDigit(bytes[i / 8], i % 8);
  }

  lemma {:induction false} BitIsDigit(b: bv8, k: nat)
    requires k < 8
    ensures BitOf(b, k) <==> Digit(b as int, k)
  {
    hide BitOf, Digit;
    if k == 0 {
      LowestBit(b);
      LowestDigit(b as int);
    } else {
      BitAbove(b, k);
      BitIsDigit(b >> 1, k - 1);
      DigitAbove(b as int, k - 1);
    }
  }

  lemma LowestBit(b: bv8)
    ensures BitOf(b, 0) <==> b as int % 2 == 1
  {
  }

  lemma BitAbove(b: bv8, k: nat)
    requires 0 < k < 8
    ensures BitOf(b, k) <==> BitOf(b >> 1, k - 1)
    ensures (b >> 1) as int == b as int / 2
  {
    Halved(b);
    if k == 1 {
    } else if k == 2 {
    } else if k == 3 {
    } else if k == 4 {
    } else if k == 5 {
    } else if k == 6 {
    } else {
      assert k == 7;
    }
  }

  lemma Halved(b: bv8)
    ensures (b >> 1) as int == b as int / 2
  {
  }

  lemma SetBitEffect(b: bv8, k: int, m: int)
    requires 0 <= k < 8 && 0 <= m < 8
    ensures BitOf(b | Mask(k), m) == (m == k || BitOf(b, m))
    ensures BitOf(b & !Mask(k), m) == (m != k && BitOf(b, m))
  {
  }

  function Written(b: bv8, k: int, one: bool): bv8
    requires 0 <= k < 8
  {
    if one then b | Mask(k) else b & !Mask(k)
  }

  lemma WrittenEffect(b: bv8, k: int, one: bool, m: int)
    requires 0 <= k < 8 && 0 <= m < 8
    ensures BitOf(Written(b, k, one), m) == if m == k then one else BitOf(b, m)
  {
    SetBitEffect(b, k, m);
  }

  lemma WriteBitEffect(bytes: seq<bv8>, i: int, one: bool)
    requires |bytes| == 8 && 0 <= i < ROM_BITS
    ensures RomOf(bytes[i / 8 := Written(bytes[i / 8], i % 8, one)]) == RomOf(bytes)[i := one]
  {
    var b := bytes[i / 8];
    var bytes' := bytes[i / 8 := Written(b, i % 8, one)];
    forall m: int | 0 <= m < ROM_BITS
      ensures RomOf(bytes')[m] == RomOf(bytes)[i := one][m]
    {
      WrittenEffect(b, i % 8, one, m % 8);
      assert RomOf(bytes')[m] == BitOf(bytes'[m / 8], m % 8);
      assert RomOf(bytes)[m] == BitOf(bytes[m / 8], m % 8);
    }
  }

  /** The handler's log after the addresses `q`, starting from the log `h`. */
  function HandlerLog(h: seq<Rom>, q: seq<Rom>, valid: Rom -> bool): seq<Rom> {
    if q == [] then h
    else
      var h' := HandlerLog(h, q[..|q| - 1], valid);
      if valid(q[|q| - 1]) then h' + [q[|q| - 1]] else h'
  }

  /** The handler is called exactly for the valid addresses of `q`, once each and in the same order. */
  lemma {:induction false} HandlerLogEnumerates(q: seq<Rom>, s: set<Rom>, valid: Rom -> bool)
    requires Enumerates(q, s)
    ensures Enumerates(HandlerLog([], q, valid), set r | r in s && valid(r))
    decreases |q|
  {
    if q != [] {
      var n := |q| - 1;
      var init, last := q[..n], q[n];
      assert q == init + [last];
      assert last !in init by {
        forall i | 0 <= i < n ensures init[i] != last {
          LessIrreflexive(q[i], q[n]);
        }
      }
      assert forall r :: r in init <==> r in s - {last};
      HandlerLogEnumerates(init, s - {last}, valid);
      var log := HandlerLog([], init, valid);
      forall r | r in log ensures Less(r, last) {
        var i :| 0 <= i < n && init[i] == r;
        assert Less(q[i], q[n]);
      }
    } else {
      assert s == {};
    }
  }

  /** What was handled before stays, and the rest is the log of `q` alone. */
  lemma {:induction false} HandlerLogAppends(h: seq<Rom>, q: seq<Rom>, valid: Rom -> bool)
    ensures HandlerLog(h, q, valid) == h + HandlerLog([], q, valid)
    decreases |q|
  {
    if q != [] {
      HandlerLogAppends(h, q[..|q| - 1], valid);
    }
  }

  /** A wired-AND slot: no participant has the other bit. */
  predicate AllTake(active: set<Rom>, i: int, one: bool)
    requires 0 <= i < ROM_BITS
  {
    forall r | r in active :: r[i] == one
  }

  /** The wire: a fixed set of devices, of which some are alarming, and the devices
      still taking part in the search that is under way. */
  class Bus {
    const devices: set<Rom>
    const alarming: set<Rom>
    var active: set<Rom>
    var position: nat
    var phase: nat

    constructor (devices: set<Rom>, alarming: set<Rom>)
      requires alarming <= devices
      ensures this.devices == devices && this.alarming == alarming
    {
      this.devices := devices;
      this.alarming := alarming;
    }

    /** Every device answers a reset with a presence pulse. */
    method Reset() returns (presence: bool)
      modifies this
      ensures presence <==> devices != {}
      ensures active == {} && position == 0 && phase == 0
    {
      active, position, phase := {}, 0, 0;
      presence := devices != {};
    }

    method Write(command: bv8)
      modifies this
      ensures active == if command == 0xEC then alarming else if command == 0xF0 then devices else {}
      ensures position == 0 && phase == 0
    {
      active := if command == ALARM_SEARCH then alarming else if command == SEARCH_ROM then devices else {};
      position, phase := 0, 0;
    }

    /** A read slot is high unless some participant pulls it low: first with its bit,
        then with the complement of its bit. */
    method ReadBit() returns (high: bool)
      requires position < ROM_BITS && phase < 2
      modifies this`phase
      ensures phase == old(phase) + 1
      ensures high == AllTake(active, position, old(phase) == 0)
    {
      high := AllTake(active, position, phase == 0);
      phase := phase + 1;
    }

    /** Participants whose bit differs from the written one drop out. */
    method WriteBit(one: bool)
      requires position < ROM_BITS && phase == 2
      modifies this
      ensures active == set r | r in old(active) && r[old(position)] == one
      ensures position == old(position) + 1 && phase == 0
    {
      active := set r | r in active && r[position] == one;
      position, phase := position + 1, 0;
    }
  }

  /** The participants left after `i` bits of the address `rom`. */
  ghost function Participants(s: set<Rom>, rom: Rom, i: int): set<Rom> {
    set b | b in s && AgreeBelow(rom, b, i)
  }

  /** Where a search stands after its first `i` bits. It started from the address `was` with the
      junction `j0`; `rom` holds the new address so far, above the bits of `was` not yet rewritten. */
  ghost predicate Scan(s: set<Rom>, was: Rom, j0: int, rom: Rom, i: int, junction: int, lastJunction: int, done: bool)
  {
    && 0 <= i <= ROM_BITS
    && (forall k :: i <= k < ROM_BITS ==> rom[k] == was[k])
    && (i <= j0 ==> AgreeBelow(rom, was, i) && junction == j0)
    && (0 <= j0 < i ==> LessAt(was, rom, j0))
    && (j0 < i ==> forall b :: InSubtree(s, was, j0, b) && !AgreeBelow(rom, b, i) ==> Less(rom, b))
    && DeepestFork(s, rom, i, if i <= j0 then lastJunction else junction)
    && (done <==> (if i <= j0 then lastJunction else junction) == -1)
  }

  /** A resumable start: nothing found yet, or `was` found with a zero fork left. */
  ghost predicate Resumable(s: set<Rom>, was: Rom, j0: int) {
    -1 <= j0 < ROM_BITS && (0 <= j0 ==> was in s && DeepestFork(s, was, ROM_BITS, j0))
  }

  /** The decision taken at bit `i`, given the two reads `a` and `nota` and the bit `before` of the last address. */
  predicate Choice(a: bool, nota: bool, before: bool, i: int, junction: int, lastJunction: int, done: bool,
                   one: bool, junction': int, lastJunction': int, done': bool)
  {
    if a || nota then
      one == a && junction' == junction && lastJunction' == lastJunction && done' == done
    else if i == junction then
      one && junction' == lastJunction && lastJunction' == lastJunction && done' == done
    else if i < junction then
      one == before && junction' == junction
      && (if before then lastJunction' == lastJunction && done' == done else lastJunction' == i && !done')
    else
      !one && junction' == i && lastJunction' == lastJunction && !done'
  }

  lemma ForkUnchanged(s: set<Rom>, a: Rom, b: Rom, k: int)
    requires 0 <= k < ROM_BITS && AgreeBelow(a, b, k + 1)
    ensures ZeroFork(s, a, k) == ZeroFork(s, b, k)
  {
    forall r ensures LessAt(a, r, k) == LessAt(b, r, k) {
    }
  }

  lemma DeepestUnchanged(s: set<Rom>, a: Rom, b: Rom, bound: int, j: int)
    requires bound <= ROM_BITS && AgreeBelow(a, b, bound) && DeepestFork(s, a, bound, j)
    ensures DeepestFork(s, b, bound, j)
  {
    forall k | 0 <= k < bound ensures ZeroFork(s, a, k) == ZeroFork(s, b, k) {
      ForkUnchanged(s, a, b, k);
    }
  }

  lemma ParticipantsStep(s: set<Rom>, rom: Rom, i: int, one: bool)
    requires 0 <= i < ROM_BITS
    ensures Participants(s, rom[i := one], i + 1) == set r | r in Participants(s, rom, i) && r[i] == one
  {
    var rom' := rom[i := one];
    forall b: Rom ensures AgreeBelow(rom', b, i + 1) <==> AgreeBelow(rom, b, i) && b[i] == one {
      assert AgreeBelow(rom', b, i + 1) ==> rom'[i] == b[i];
      assert forall k :: 0 <= k < i ==> rom'[k] == rom[k];
    }
  }

  /** Writing bit `i` as 0 leaves a zero fork there exactly when some participant has a 1;
      writing it as 1 leaves none. */
  lemma ForkAtWrittenBit(s: set<Rom>, rom: Rom, i: int, one: bool)
    requires 0 <= i < ROM_BITS
    ensures ZeroFork(s, rom[i := one], i) <==> !one && exists b :: b in Participants(s, rom, i) && b[i]
  {
    var rom' := rom[i := one];
    forall b: Rom ensures LessAt(rom', b, i) <==> AgreeBelow(rom, b, i) && !one && b[i] {
      assert forall k :: 0 <= k < i ==> rom'[k] == rom[k];
    }
    assert forall b :: b in s && LessAt(rom', b, i) ==> b in Participants(s, rom, i);
    assert forall b :: b in Participants(s, rom, i) && b[i] && !one ==> LessAt(rom', b, i);
  }

  lemma DeepestExtends(s: set<Rom>, rom: Rom, i: int, one: bool, j: int)
    requires 0 <= i < ROM_BITS && DeepestFork(s, rom, i, j)
    ensures DeepestFork(s, rom[i := one], i + 1, if ZeroFork(s, rom[i := one], i) then i else j)
  {
    DeepestUnchanged(s, rom, rom[i := one], i, j);
  }

  lemma DiffersBefore(a: Rom, b: Rom, i: int, k: int)
    requires LessAt(a, b, k) && i <= ROM_BITS && !AgreeBelow(a, b, i)
    ensures k < i
  {
  }

  /** Past the junction the path stays below every member of the subtree that it has left. */
  lemma StillLeast(s: set<Rom>, was: Rom, j0: int, rom: Rom, i: int, one: bool)
    requires -1 <= j0 <= i && 0 <= i < ROM_BITS
    requires i == j0 ==> one && AgreeBelow(rom, was, i)
    requires j0 < i ==> (forall b :: b in Participants(s, rom, i) && one ==> b[i])
    requires j0 < i ==> (forall b :: InSubtree(s, was, j0, b) && !AgreeBelow(rom, b, i) ==> Less(rom, b))
    ensures forall b :: InSubtree(s, was, j0, b) && !AgreeBelow(rom[i := one], b, i + 1) ==> Less(rom[i := one], b)
  {
    var rom' := rom[i := one];
    forall b | InSubtree(s, was, j0, b) && !AgreeBelow(rom', b, i + 1) ensures Less(rom', b) {
      if AgreeBelow(rom, b, i) {
        assert b in Participants(s, rom, i) && b[i] != one;
        assert LessAt(rom', b, i);
      } else {
        var k :| LessAt(rom, b, k);
        DiffersBefore(rom, b, i, k);
        assert LessAt(rom', b, k);
      }
    }
  }

  /** What one pass of the loop decides, and that it keeps `Scan`. */
  lemma ScanStep(s: set<Rom>, was: Rom, j0: int, rom: Rom, i: int, junction: int, lastJunction: int, done: bool,
                 one: bool, junction': int, lastJunction': int, done': bool)
    requires Resumable(s, was, j0) && 0 <= i < ROM_BITS
    requires Scan(s, was, j0, rom, i, junction, lastJunction, done)
    requires Participants(s, rom, i) != {}
    requires Choice(AllTake(Participants(s, rom, i), i, true), AllTake(Participants(s, rom, i), i, false),
                    rom[i], i, junction, lastJunction, done, one, junction', lastJunction', done')
    ensures Scan(s, was, j0, rom[i := one], i + 1, junction', lastJunction', done')
    ensures Participants(s, rom[i := one], i + 1) == (set r | r in Participants(s, rom, i) && r[i] == one) != {}
  {
    var rom' := rom[i := one];
    ParticipantsStep(s, rom, i, one);
    ForkAtWrittenBit(s, rom, i, one);
    DeepestExtends(s, rom, i, one, if i <= j0 then lastJunction else junction);
    assert exists b :: b in Participants(s, rom, i) && b[i] == one;
    var some :| some in Participants(s, rom, i) && some[i] == one;
    assert some in Participants(s, rom', i + 1);
    if i <= j0 {
      assert was in Participants(s, rom, i);
      if i == j0 {
        var b :| b in s && LessAt(was, b, j0);
        assert b in Participants(s, rom, i);
        assert LessAt(was, rom', j0);
      } else {
        assert one == was[i];
      }
    } else if 0 <= j0 {
      assert LessAt(was, rom', j0);
    }
    if j0 <= i {
      StillLeast(s, was, j0, rom, i, one);
    }
  }

  lemma NobodyLeft(s: set<Rom>, rom: Rom, i: int)
    requires 0 <= i < ROM_BITS
    requires AllTake(Participants(s, rom, i), i, true) && AllTake(Participants(s, rom, i), i, false)
    ensures Participants(s, rom, i) == {} && (i == 0 ==> s == {})
  {
    forall b ensures b !in Participants(s, rom, i) {
    }
    assert Participants(s, rom, 0) == s;
  }

  /** A completed scan has found the next address, and its junction is the deepest zero fork of that address. */
  lemma ScanDone(s: set<Rom>, was: Rom, j0: int, rom: Rom, junction: int, lastJunction: int, done: bool)
    requires Resumable(s, was, j0)
    requires Scan(s, was, j0, rom, ROM_BITS, junction, lastJunction, done) && Participants(s, rom, ROM_BITS) != {}
    ensures IsNext(s, if j0 == -1 then None else Some(was), rom)
    ensures DeepestFork(s, rom, ROM_BITS, junction) && (done <==> junction == -1)
  {
    var b :| b in Participants(s, rom, ROM_BITS);
    assert b == rom;
    forall b: Rom | AgreeBelow(rom, b, ROM_BITS) ensures b == rom {
    }
    if j0 == -1 {
      assert forall b :: b in s ==> InSubtree(s, was, j0, b);
      LeastIsFirst(s, rom);
    } else {
      LeastOfSubtreeIsNext(s, was, j0, rom);
    }
  }

  /** The addresses handed out so far: everything up to and including `prev`, in order. */
  ghost predicate Visited(visited: seq<Rom>, s: set<Rom>, prev: Option<Rom>) {
    Enumerates(visited, s - Beyond(s, prev))
  }

  lemma NothingVisited(s: set<Rom>)
    ensures Visited([], s, None)
  {
    assert Beyond(s, None) == s;
  }

  lemma VisitOne(h: seq<Rom>, visited: seq<Rom>, s: set<Rom>, prev: Option<Rom>, r: Rom, valid: Rom -> bool)
    requires Visited(visited, s, prev) && IsNext(s, prev, r)
    ensures Visited(visited + [r], s, Some(r))
    ensures |Beyond(s, Some(r))| < |Beyond(s, prev)|
    ensures HandlerLog(h, visited + [r], valid) ==
            if valid(r) then HandlerLog(h, visited, valid) + [r] else HandlerLog(h, visited, valid)
  {
    BeyondNext(s, prev, r);
    ExtendEnumeration(visited, s, prev, r);
    assert (visited + [r])[..|visited|] == visited;
  }

  lemma AllVisited(visited: seq<Rom>, s: set<Rom>, prev: Option<Rom>)
    requires Visited(visited, s, prev) && NoneLeft(s, prev)
    ensures Enumerates(visited, s) && |visited| == |s|
  {
    assert Beyond(s, prev) == {};
    assert s - Beyond(s, prev) == s;
    EnumerationSize(visited, s);
  }

  class DallasTemperature {
    const wire: Bus
    const alarmSearchAddress: array<bv8>
    var alarmSearchJunction: int     // a signed char: -1 is "none"
    var alarmSearchExhausted: bool
    const validAddress: Rom -> bool
    var handled: seq<Rom>            // the calls made to the alarm handler

    constructor (wire: Bus, validAddress: Rom -> bool)
      ensures this.wire == wire && this.validAddress == validAddress
      ensures alarmSearchAddress.Length == 8 && fresh(alarmSearchAddress)
      ensures handled == []
    {
      this.wire := wire;
      this.validAddress := validAddress;
      alarmSearchAddress := new bv8[8];
      handled := [];
    }

    ghost function Address(): Rom
      requires alarmSearchAddress.Length == 8
      reads alarmSearchAddress
    {
      RomOf(alarmSearchAddress[..])
    }

    /** The last address found, or nothing right after a reset. */
    ghost function Last(): Option<Rom>
      requires alarmSearchAddress.Length == 8
      reads this`alarmSearchJunction, this`alarmSearchExhausted, alarmSearchAddress
    {
      if alarmSearchJunction == -1 && !alarmSearchExhausted then None else Some(Address())
    }

    /** Between calls the junction is the deepest zero fork on the path last taken,
        and the search is exhausted exactly when there is none. */
    ghost predicate Valid()
      reads this`alarmSearchJunction, this`alarmSearchExhausted, alarmSearchAddress
    {
      && alarmSearchAddress.Length == 8
      && -1 <= alarmSearchJunction < ROM_BITS
      && (Last().Some? ==>
            && Address() in wire.alarming
            && DeepestFork(wire.alarming, Address(), ROM_BITS, alarmSearchJunction)
            && (alarmSearchExhausted <==> alarmSearchJunction == -1))
    }

    method ResetAlarmSearch()
      requires alarmSearchAddress.Length == 8
      modifies this`alarmSearchJunction, this`alarmSearchExhausted, alarmSearchAddress
      ensures Valid() && Last() == None
      ensures forall k :: 0 <= k < 7 ==> alarmSearchAddress[k] == 0
      ensures alarmSearchAddress[7] == old(alarmSearchAddress[7])
    {
      alarmSearchJunction := -1;
      alarmSearchExhausted := false;
      for i := 0 to 7
        invariant alarmSearchJunction == -1 && !alarmSearchExhausted
        invariant forall k :: 0 <= k < i ==> alarmSearchAddress[k] == 0
        invariant alarmSearchAddress[7] == old(alarmSearchAddress[7])
      {
        alarmSearchAddress[i] := 0;
      }
    }

    /** Picks the branch at bit `i`: the only one there is, or at a fork the one the junction asks for. */
    method ChooseBranch(i: nat, a: bool, nota: bool, lastJunction: int, done: bool)
      returns (one: bool, lastJunction': int, done': bool)
      requires alarmSearchAddress.Length == 8 && i < ROM_BITS
      modifies this`alarmSearchJunction
      ensures Choice(a, nota, Address()[i], i, old(alarmSearchJunction), lastJunction, done,
                     one, alarmSearchJunction, lastJunction', done')
    {
      one, lastJunction', done' := a, lastJunction, done;
      if !a && !nota {
        if i == alarmSearchJunction {
          // this is the turn to decide differently: 0 last time, 1 now
          one := true;
          alarmSearchJunction := lastJunction;
        } else if i < alarmSearchJunction {
          // take whatever was taken last time
          if BitOf(alarmSearchAddress[i / 8], i % 8) {
            one := true;
          } else {
            one := false;
            done' := false;
            lastJunction' := i;
          }
        } else {
          // new ground: take the 0
          one := false;
          alarmSearchJunction := i;
          done' := false;
        }
      }
    }

    /** Records the branch taken at bit `i`. */
    method WriteAddressBit(i: nat, a: bool)
      requires alarmSearchAddress.Length == 8 && i < ROM_BITS
      modifies alarmSearchAddress
      ensures Address() == old(Address())[i := a]
    {
      WriteBitEffect(alarmSearchAddress[..], i, a);
      ghost var was := alarmSearchAddress[..];
      if a {
        alarmSearchAddress[i / 8] := alarmSearchAddress[i / 8] | Mask(i % 8);
      } else {
        alarmSearchAddress[i / 8] := alarmSearchAddress[i / 8] & !Mask(i % 8);
      }
      assert alarmSearchAddress[..] == was[i / 8 := Written(was[i / 8], i % 8, a)];
    }

    method CopyAddress(newAddr: array<bv8>)
      requires alarmSearchAddress.Length == 8 && newAddr.Length == 8 && newAddr != alarmSearchAddress
      modifies newAddr
      ensures newAddr[..] == alarmSearchAddress[..]
    {
      for i := 0 to 8
        invariant newAddr[..i] == alarmSearchAddress[..i]
      {
        newAddr[i] := alarmSearchAddress[i];
      }
    }

    /** One pass of the search: two reads, a decision, a write. */
    method TakeBit(i: nat, lastJunction: int, done: bool, ghost was: Rom, ghost j0: int)
      returns (answered: bool, lastJunction': int, done': bool)
      requires alarmSearchAddress.Length == 8 && i < ROM_BITS && Resumable(wire.alarming, was, j0)
      requires wire.position == i && wire.phase == 0 && wire.active == Participants(wire.alarming, Address(), i)
      requires i == 0 || wire.active != {}
      requires Scan(wire.alarming, was, j0, Address(), i, alarmSearchJunction, lastJunction, done)
      modifies this`alarmSearchJunction, alarmSearchAddress, wire
      ensures answered ==>
                && wire.position == i + 1 && wire.phase == 0
                && wire.active == Participants(wire.alarming, Address(), i + 1) != {}
                && Scan(wire.alarming, was, j0, Address(), i + 1, alarmSearchJunction, lastJunction', done')
      ensures !answered ==>
                && i == 0 && wire.alarming == {}
                && alarmSearchJunction == old(alarmSearchJunction) && Address() == old(Address())
    {
      ghost var s, here, junction := wire.alarming, Address(), alarmSearchJunction;
      lastJunction', done' := lastJunction, done;
      var a := wire.ReadBit();
      var nota := wire.ReadBit();
      if a && nota {
        NobodyLeft(s, here, i);
        answered := false;
      } else {
        a, lastJunction', done' := ChooseBranch(i, a, nota, lastJunction, done);
        ScanStep(s, was, j0, here, i, junction, lastJunction, done, a, alarmSearchJunction, lastJunction', done');
        WriteAddressBit(i, a);
        wire.WriteBit(a);
        answered := true;
      }
    }

    /** The 64 passes of the search. An incomplete walk means that nobody answered. */
    method WalkTree() returns (complete: bool, done: bool)
      requires alarmSearchAddress.Length == 8 && Resumable(wire.alarming, Address(), alarmSearchJunction)
      requires wire.active == wire.alarming && wire.position == 0 && wire.phase == 0
      modifies this`alarmSearchJunction, alarmSearchAddress, wire
      ensures complete ==>
                && IsNext(wire.alarming, if old(alarmSearchJunction) == -1 then None else Some(old(Address())), Address())
                && DeepestFork(wire.alarming, Address(), ROM_BITS, alarmSearchJunction)
                && (done <==> alarmSearchJunction == -1)
      ensures !complete ==>
                wire.alarming == {} && alarmSearchJunction == old(alarmSearchJunction) && Address() == old(Address())
    {
      var lastJunction := -1;
      complete, done := true, true;
      ghost var s, was, j0 := wire.alarming, Address(), alarmSearchJunction;
      for i := 0 to ROM_BITS
        invariant wire.position == i && wire.phase == 0 && wire.active == Participants(s, Address(), i)
        invariant if i == 0 then alarmSearchJunction == j0 && Address() == was else wire.active != {}
        invariant Scan(s, was, j0, Address(), i, alarmSearchJunction, lastJunction, done)
      {
        complete, lastJunction, done := TakeBit(i, lastJunction, done, was, j0);
        if !complete {
          return;
        }
      }
      ScanDone(s, was, j0, Address(), alarmSearchJunction, lastJunction, done);
    }

    method AlarmSearch(newAddr: array<bv8>) returns (found: bool)
      requires Valid() && newAddr.Length == 8 && newAddr != alarmSearchAddress
      requires wire.alarming <= wire.devices
      modifies this`alarmSearchJunction, this`alarmSearchExhausted, alarmSearchAddress, newAddr, wire
      ensures Valid()
      ensures found ==> IsNext(wire.alarming, old(Last()), Address()) && Last() == Some(Address())
                        && newAddr[..] == alarmSearchAddress[..]
      ensures found ==> forall i: nat :: i < 64 ==> (Address()[i] <==> newAddr[i / 8] as int / Pow2(i % 8) % 2 == 1)
      ensures !found ==> NoneLeft(wire.alarming, old(Last())) && Last() == old(Last())
                         && newAddr[..] == old(newAddr[..])
    {
      if alarmSearchExhausted {
        BeyondIsFork(wire.alarming, Address(), alarmSearchJunction);
        return false;
      }
      var presence := wire.Reset();
      if !presence {
        return false;
      }
      wire.Write(ALARM_SEARCH);
      var complete, done := WalkTree();
      if !complete {
        return false;
      }
      if done {
        alarmSearchExhausted := true;
      }
      CopyAddress(newAddr);
      found := true;
      forall i: nat | i < 64 ensures Address()[i] <==> newAddr[i / 8] as int / Pow2(i % 8) % 2 == 1 {
        RomDigits(newAddr[..], i);
      }
    }

    /** Is any device alarming? */
    method HasAlarm() returns (alarm: bool)
      requires alarmSearchAddress.Length == 8 && wire.alarming <= wire.devices
      modifies this`alarmSearchJunction, this`alarmSearchExhausted, alarmSearchAddress, wire
      ensures Valid()
      ensures alarm <==> wire.alarming != {}
    {
      var deviceAddress := new bv8[8];
      ResetAlarmSearch();
      alarm := AlarmSearch(deviceAddress);
    }

    /** Hands a found address to the alarm handler, if its checksum is right. */
    method CallHandler(alarmAddr: array<bv8>)
      requires alarmAddr.Length == 8
      modifies this`handled
      ensures handled == if validAddress(RomOf(alarmAddr[..])) then old(handled) + [RomOf(alarmAddr[..])] else old(handled)
    {
      if validAddress(RomOf(alarmAddr[..])) {
        handled := handled + [RomOf(alarmAddr[..])];
      }
    }

    /** In the middle of the search: `visited` have been found, and handled if valid, the last of them `prev`; and if
        there was a next one, it has been found but not handled yet. */
    ghost predicate Searching(found: bool, visited: seq<Rom>, prev: Option<Rom>, before: seq<Rom>, alarmAddr: array<bv8>)
      reads this, alarmSearchAddress, alarmAddr
    {
      && Valid() && alarmAddr.Length == 8 && alarmAddr != alarmSearchAddress && wire.alarming <= wire.devices
      && Visited(visited, wire.alarming, prev) && handled == HandlerLog(before, visited, validAddress)
      && (found ==> IsNext(wire.alarming, prev, Address()) && Last() == Some(Address()) && alarmAddr[..] == alarmSearchAddress[..])
      && (!found ==> NoneLeft(wire.alarming, prev))
    }

    /** Handles the device found, and looks for the next one. */
    method VisitNext(alarmAddr: array<bv8>, ghost visited: seq<Rom>, ghost prev: Option<Rom>, ghost before: seq<Rom>)
      returns (found: bool)
      requires Searching(true, visited, prev, before, alarmAddr)
      modifies this`alarmSearchJunction, this`alarmSearchExhausted, this`handled, alarmSearchAddress, alarmAddr, wire
      ensures Searching(found, visited + [old(Address())], Some(old(Address())), before, alarmAddr)
      ensures |Beyond(wire.alarming, Some(old(Address())))| < |Beyond(wire.alarming, prev)|
    {
      hide Visited, IsNext, NoneLeft, Beyond, HandlerLog, RomOf, DeepestFork;
      VisitOne(before, visited, wire.alarming, prev, Address(), validAddress);
      CallHandler(alarmAddr);
      found := AlarmSearch(alarmAddr);
    }

    /** Calls the handler for every alarming device with a valid address, once each, in address order. */
    method ProcessAlarms() returns (ghost visited: seq<Rom>)
      requires alarmSearchAddress.Length == 8 && wire.alarming <= wire.devices
      modifies this`alarmSearchJunction, this`alarmSearchExhausted, this`handled, alarmSearchAddress, wire
      ensures Valid()
      ensures Enumerates(visited, wire.alarming) && |visited| == |wire.alarming|
      ensures handled == HandlerLog(old(handled), visited, validAddress)
      ensures old(handled) <= handled
      ensures Enumerates(handled[|old(handled)|..], set r | r in wire.alarming && validAddress(r))
    {
      assert HandlerLog(handled, [], validAddress) == handled;
      hide Enumerates, Visited, IsNext, NoneLeft, Beyond, HandlerLog, RomOf, DeepestFork;
      ResetAlarmSearch();
      var alarmAddr := new bv8[8];
      visited := [];
      ghost var prev := None;
      var found := AlarmSearch(alarmAddr);
      NothingVisited(wire.alarming);
      while found
        invariant fresh(alarmAddr) && Searching(found, visited, prev, old(handled), alarmAddr)
        decreases |Beyond(wire.alarming, prev)|
      {
        ghost var rom := Address();
        found := VisitNext(alarmAddr, visited, prev, old(handled));
        visited, prev := visited + [rom], Some(rom);
      }
      AllVisited(visited, wire.alarming, prev);
      HandlerLogAppends(old(handled), visited, validAddress);
      HandlerLogEnumerates(visited, wire.alarming, validAddress);
      Sequences.RestOfConcat(old(handled), HandlerLog([], visited, validAddress));
    }

    /** A client that starts over and then searches `n` times, whatever the address buffer held. */
    method SearchRepeatedly(n: nat) returns (ghost results: seq<Option<Rom>>)
      requires alarmSearchAddress.Length == 8 && wire.alarming <= wire.devices
      modifies this`alarmSearchJunction, this`alarmSearchExhausted, alarmSearchAddress, wire
      ensures |results| == n
      ensures SearchRun(wire.alarming, None, results)
      ensures Lists(results, wire.alarming)
    {
      ResetAlarmSearch();
      var newAddr := new bv8[8];
      results := [];
      for i := 0 to n
        invariant Valid() && |results| == i
        invariant SearchRun(wire.alarming, None, results) && Last() == LastFound(None, results)
      {
        var found := AlarmSearch(newAddr);
        SearchRunSnoc(wire.alarming, None, results, if found then Last() else None);
        results := results + [if found then Last() else None];
      }
      RunEnumerates(wire.alarming, None, results);
      assert Beyond(wire.alarming, None) == wire.alarming;
    }
  }
}
