/** The receive engine with the driver's own registers and buffers, against the sample machine, and the
    compression of repeated frames against the frames accepted. */
module RxEngine {
  import opened Bits
  import opened Sequences
  import opened Options
  import opened Crc
  import opened Deleter
  import opened RxTable
  import opened Receiving
  import opened Holding
  import CrcTable
  import Transmitting

  lemma {:induction false} DigitsPrefix(x: nat, m: nat, n: nat)
    requires m <= n
    ensures Digits(x, n)[..m] == Digits(x, m)
    decreases m
  {
    if m > 0 {
      DigitsPrefix(x / 2, m - 1, n - 1);
      assert Digits(x, n)[..m] == [x % 2 == 1] + Digits(x / 2, n - 1)[..m - 1];
    }
  }

  /** Sixteen bits in the register are the expected check exactly when the words are equal. */
  lemma CheckMatches(complement: bool, c: Reg, held: seq<bool>)
    requires |held| == 16
    ensures Val(c) < 0x1_0000 && Val(held) < 0x1_0000
    ensures Transmitting.CheckWord(complement, Val(c)) == Val(held) % 0x1_0000 <==> held == CheckBits(complement, c)
  {
    Transmitting.CheckWords(complement, c);
    CrcTable.RegWord(held);
    SmallMod(Val(held), 0x1_0000);
    if Val(CheckBits(complement, c)) == Val(held) { ValInjective(CheckBits(complement, c), held); }
  }

  class Receiver {
    const config: Config
    const bcTable: seq<nat>
    const rxTable: seq<RxEntry>

    var residue: nat
    var rbits: nat
    var bcc: nat
    var state: nat
    var mode: Mode
    var bytes: nat
    var err: Cause
    var msg: Option<seq<octet>>
    var nxt: Option<seq<octet>>
    var cmp: Option<seq<octet>>
    var repeat: nat
    var up: seq<Indication>

    ghost var pending: seq<bool>
    ghost var ends: seq<(seq<octet>, seq<bool>)>
    ghost var events: seq<Event>

    /** The buffer held for comparison, how many buffers there have been, and those sent up or freed. */
    ghost var cmpId: nat
    ghost var made: nat
    ghost var given: seq<nat>

    /** Set up once: the limits and the tables. */
    ghost predicate Ready() {
      ConfigOk(config) && CrcTable.Complete(bcTable) && RxTable.Complete(rxTable, config.width)
    }

    /** The octets of the frame being collected. */
    ghost function Octets(): seq<octet>
      reads `msg, `nxt
    {
      (if msg.Some? then msg.value else []) + (if nxt.Some? then nxt.value else [])
    }

    ghost predicate Collecting()
      reads `residue, `rbits, `pending, `bcc, `bytes, `msg, `nxt
    {
      && residue == Val(pending) && rbits == |pending|
      && bytes == |Octets()| && bcc == Val(MessageCrc(Octets()))
      && (nxt.Some? ==> 1 <= |nxt.value| <= FASTBUF)
      && (bytes > 0 ==> nxt.Some?)
    }

    ghost function Kept(): Store
      reads `up, `cmp, `repeat, `cmpId, `made, `given
    {
      Store(if cmp.Some? then Some(Buffer(cmpId, cmp.value)) else None, repeat, up, made, given)
    }

    /** What is held, what went up and what became of the buffers is what the frames and errors so far
        make of them. */
    ghost predicate Settled()
      reads `up, `cmp, `repeat, `cmpId, `made, `given, `events
    {
      Kept() == StoreAfter(config, events)
    }

    ghost predicate Valid()
      reads this
    {
      && state < RX_STATES && Settled()
      && (mode == Mof ==> Collecting() && rbits <= 16)
      && (mode != Mof ==> msg == nxt == None)
      && (mode == Hunt ==> bytes < config.count || !config.counting)
      && (mode == Hunt && !config.counting ==> bytes == 0)
    }

    /** Whatever came before: what went up, expanded, and the copies held are what was reported; and no buffer
        was given away twice if and only if none of the reports gives one away again. */
    lemma Dues()
      requires Valid() && ConfigOk(config)
      ensures Expand(up) + HeldCopies(Kept()) == events
      ensures NoTwice(given) <==> NeverAgain(config, events)
    {
      hide StoreAfter, Expand, NoTwice, NeverAgain;
      Lossless(config, events);
      OnceExactly(config, events);
    }

    /** The state of the sample machine. */
    ghost function Abs(): Rx
      reads this
    {
      Rx(state, mode, if mode == Mof then Octets() else [], if mode == Mof then pending else [],
         if mode == Hunt then bytes else 0, err, ends, events)
    }

    constructor (config: Config, bcTable: seq<nat>, rxTable: seq<RxEntry>)
      requires ConfigOk(config)
      requires CrcTable.Complete(bcTable) && RxTable.Complete(rxTable, config.width)
      ensures Ready() && Valid() && Abs() == START_RX && up == []
      ensures this.config == config
    {
      hide CrcTable.Complete, RxTable.Complete;
      this.config, this.bcTable, this.rxTable := config, bcTable, rxTable;
      residue, rbits, bcc, state, mode, bytes, err := 0, 0, 0, 0, Hunt, 0, NoError;
      msg, nxt, cmp, repeat, up := None, None, None, 0, [];
      pending, ends, events := [], [], [];
      cmpId, made, given := 0, 0, [];
    }

    // ---- what goes up ----

    /** What has gone up once the held copies have followed. */
    ghost function Flushed(): seq<Indication>
      reads `up, `cmp, `repeat
    {
      up + (if cmp.Some? && repeat > 0 then [DataInd(repeat, cmp.value)] else [])
    }

    /** Send the held frame up with its count; with nothing counted, let it go. */
    method DeliverRepeat()
      requires cmp.Some?
      modifies `up, `cmp, `repeat, `given
      ensures Kept() == Deliver(old(Kept()))
      ensures repeat == 0 && given == old(given) + [old(cmpId)]
      ensures if old(repeat) == 0 then up == old(up) && cmp == None
              else up == old(up) + [DataInd(old(repeat), cmp.value)] && cmp == old(cmp)
    {
      given := given + [cmpId];
      if repeat > 0 {
        up := up + [DataInd(repeat, cmp.value)];
        repeat := 0;
      } else {
        cmp := None;
      }
    }

    method SameOctets(a: seq<octet>, b: seq<octet>) returns (same: bool)
      requires |a| == |b|
      ensures same <==> a == b
    {
      var i := 0;
      while i < |a| && a[i] == b[i]
        invariant 0 <= i <= |a| && a[..i] == b[..i]
      {
        i := i + 1;
      }
      same := i == |a|;
    }

    /** Whether a frame is to be counted with the one held. */
    method Matches(data: seq<octet>) returns (same: bool)
      requires cmp.Some? && |data| >= config.hlen
      ensures same <==> Counts(config, Kept(), data)
      ensures same <==> data == cmp.value && repeat <= 50 && |data| == config.hlen
    {
      var len := |data|;
      if repeat > 50 || config.hlen < len || len > config.hlen + 2 || len != |cmp.value| {
        return false;
      }
      same := SameOctets(data, cmp.value);
    }

    /** A frame has been accepted.  It is only counted when it equals the held one, which has at most 50
        copies counted, and is of the least length; otherwise the copies go up, then the frame. */
    method RxBuffer()
      requires Settled() && msg.Some? && |msg.value| >= config.hlen
      modifies `up, `cmp, `repeat, `cmpId, `made, `given, `msg, `events
      ensures Settled() && msg == None
      ensures events == old(events) + [Good(old(msg.value))]
      ensures Kept() == Accept(config, old(Kept()), old(msg.value))
      ensures var data := old(msg.value);
              if old(cmp) == Some(data) && old(repeat) <= 50 && |data| == config.hlen
              then repeat == old(repeat) + 1 && up == old(up) && cmp == old(cmp)
              else
                && (old(cmp).Some? ==> repeat == 0) && up == old(Flushed()) + [DataInd(1, data)]
                && (config.compression && config.hlen <= |data| <= config.hlen + 2 ==>
                      cmp == Some(if |data| <= 64 then data else data[..64]))
                && (!(config.compression && config.hlen <= |data| <= config.hlen + 2) ==>
                      cmp == if old(cmp).Some? && old(repeat) > 0 then old(cmp) else None)
    {
      hide StoreAfter;
      var data := msg.value;
      var len := |data|;
      ghost var frame := made;
      StoreSnoc(config, events, Good(data));
      events := events + [Good(data)];
      if cmp.Some? {
        var same := Matches(data);
        if same {
          repeat := repeat + 1;
          made, given := made + 1, given + [frame];
          msg := None;
          return;
        }
        DeliverRepeat();
      }
      made := frame + 1;
      if config.compression {
        if config.hlen <= len <= config.hlen + 2 {
          cmp := Some(if len <= FASTBUF then data else data[..FASTBUF]);
          cmpId, made := made, made + 1;
          repeat := 0;
        }
      }
      up := up + [DataInd(1, data)];
      given := given + [frame];
      msg := None;
    }

    method LinkBuffer()
      requires nxt.Some?
      modifies `msg, `nxt
      ensures nxt == None && msg == Some(old(Octets()))
    {
      assert [] + nxt.value == nxt.value;
      msg := Some((if msg.Some? then msg.value else []) + nxt.value);
      nxt := None;
    }

    /** Report an error: the held copies go up first, then the error with what had been collected; then that
        is freed, because the indication returns nought when it has succeeded. */
    method RxError(cause: Cause)
      requires Settled()
      modifies `up, `cmp, `repeat, `cmpId, `made, `given, `msg, `nxt, `events
      ensures Settled() && msg == nxt == None
      ensures events == old(events) + [Bad(cause, old(Octets()))]
      ensures Kept() == Fail(old(Kept()), cause, old(Octets()))
      ensures up == old(Flushed()) + [ErrorInd(cause, old(Octets()))]
    {
      hide StoreAfter;
      ghost var data := Octets();
      if nxt.Some? {
        LinkBuffer();
      }
      var collected := if msg.Some? then msg.value else [];
      assert collected == data;
      StoreSnoc(config, events, Bad(cause, data));
      events := events + [Bad(cause, data)];
      if cmp.Some? {
        DeliverRepeat();
      }
      up := up + [ErrorInd(cause, collected)];
      if collected != [] {
        made, given := made + 1, given + [made, made];
      }
      msg, nxt := None, None;
    }

    // ---- collecting a frame ----

    /** Put the bits of an entry in the register above those it holds. */
    method Append(r: RxEntry, ghost e: Sample)
      requires residue == Val(pending) && rbits == |pending| && |pending| + |e.out| <= 28 && Shows(r, e)
      modifies `residue, `rbits, `pending
      ensures residue == Val(pending) < U32 && rbits == |pending| && pending == old(pending) + e.out
    {
      RegisterAppend(pending, e.out);
      residue := Or(residue, Shl(r.bitString, rbits) % U32);
      rbits := rbits + r.bitLength;
      pending := pending + e.out;
    }

    /** One octet into the buffers: a full buffer is linked to the message, and a new one started. */
    method StoreOctet(b: octet)
      requires nxt.Some? ==> |nxt.value| <= FASTBUF
      modifies `msg, `nxt
      ensures Octets() == old(Octets()) + [b]
      ensures nxt.Some? && 1 <= |nxt.value| <= FASTBUF
      ensures if old(nxt).Some? && |old(nxt).value| < 64 then msg == old(msg) && nxt == Some(old(nxt).value + [b])
              else nxt == Some([b]) && msg == if old(nxt).Some? then Some(old(Octets())) else old(msg)
    {
      ghost var before := Octets();
      if nxt.Some? && |nxt.value| >= FASTBUF {
        LinkBuffer();
        assert Octets() == before;
      }
      if nxt.None? {
        nxt := Some([]);
        assert Octets() == before;
      }
      ghost var head := if msg.Some? then msg.value else [];
      assert head + (nxt.value + [b]) == head + nxt.value + [b] && [] + [b] == [b];
      nxt := Some(nxt.value + [b]);
    }

    /** Move whole octets from the register to the buffers while more than sixteen bits are held. */
    method DrainOctets() returns (long: bool)
      requires Ready() && Collecting() && rbits <= 28
      modifies `residue, `rbits, `pending, `bcc, `bytes, `msg, `nxt
      ensures Collecting()
      ensures (Octets(), pending, long) == old(Drain(config.mlen, Octets(), pending))
      ensures !long ==> rbits <= 16
    {
      hide CrcTable.Complete, RxTable.Complete, Val, MessageCrc;
      long := false;
      while rbits > 16 && !long
        invariant Collecting() && rbits <= 28
        invariant if long then (Octets(), pending, true) == old(Drain(config.mlen, Octets(), pending))
                  else Drain(config.mlen, Octets(), pending) == old(Drain(config.mlen, Octets(), pending))
        decreases rbits
      {
        ghost var octets, held := Octets(), pending;
        RegisterTake(pending, 8);
        assert Pow2(8) == 256 by { assert Pow2(4) == 16; }
        var b: octet := residue % 256;
        OctetVal(held[..8]);
        FoldOctet(b);
        StoreOctet(b);
        residue := residue / 256;
        rbits := rbits - 8;
        bytes := bytes + 1;
        pending := pending[8..];
        assert TakeOctet(held) == b && Octets() == octets + [b];
        long := bytes > config.mlen;
      }
    }

    /** The check register over one more octet, by table. */
    method FoldOctet(b: octet)
      requires Ready() && bcc == Val(MessageCrc(Octets()))
      modifies `bcc
      ensures bcc == Val(MessageCrc(Octets() + [b]))
    {
      hide RxTable.Complete, Val;
      ghost var reg := MessageCrc(Octets());
      MessageCrcNext(Octets(), b);
      CrcTable.WordStep(reg, b);
      CrcTable.CompleteEntry(bcTable, Xor(bcc, b) % 256);
      bcc := Xor(bcc / 256, bcTable[Xor(bcc, b) % 256]);
    }

    /** The tests at the end of a frame, in the driver's order. */
    method CheckFrame(canPut: bool) returns (v: Cause)
      requires Ready() && Collecting()
      modifies `msg, `nxt
      ensures v == old(Verdict(config, Octets(), pending, canPut))
      ensures Octets() == old(Octets())
      ensures v == NoError ==> msg == Some(Octets()) && nxt.None? && |msg.value| >= config.hlen
    {
      hide CrcTable.Complete, RxTable.Complete;
      if rbits != 16 {
        return Incomplete;
      }
      CheckMatches(config.complement, MessageCrc(Octets()), pending);
      if Transmitting.CheckWord(config.complement, bcc) != residue % 0x1_0000 {
        return CrcError;
      }
      if bytes < config.hlen {
        return TooShort;
      }
      if bytes > config.mlen {
        return Format;
      }
      ghost var octets := Octets();
      LinkBuffer();
      assert octets + [] == octets;
      if config.signalling {
        var same := LenCheck(msg.value);
        if !same {
          return Format;
        }
      }
      if !canPut {
        return Overrun;
      }
      return NoError;
    }

    /** The length indicator against the octets that follow it. */
    method LenCheck(data: seq<octet>) returns (same: bool)
      requires ConfigOk(config) && config.hlen <= |data|
      ensures same <==> Carried(config.hlen, data) == Indicated(config.hlen, data)
      ensures same <==> LengthTold(config.hlen, data)
    {
      LengthTells(config.hlen, data);
      var len: nat, xlen;
      if config.hlen > 3 {
        len := data[config.hlen - 2];
        len := len * 256;
        len := len + data[config.hlen - 1];
        len := len % 0x200;
        xlen := |data| - config.hlen;
      } else {
        len := data[config.hlen - 1];
        len := len % 0x40;
        xlen := if |data| - config.hlen >= 63 then 63 else |data| - config.hlen;
      }
      same := xlen == len;
    }

    // ---- one sample ----

    method BeginCollecting(r: RxEntry, ghost e: Sample)
      requires Shows(r, e) && |e.out| <= 12 && e.q < RX_STATES && state == e.q && mode == Sync
      requires msg == nxt == None && Settled()
      modifies `mode, `residue, `rbits, `bytes, `bcc, `pending
      ensures Valid() && Abs() == BeginFrame(old(Abs()), e)
    {
      hide Val, CrcBits, MessageCrc;
      if r.bitLength != 0 {
        CrcTable.StartWord();
        MessageCrcEmpty();
        assert Octets() == [];
        mode, residue, rbits, bytes, bcc := Mof, r.bitString, r.bitLength, 0, 0x00ff;
        pending := e.out;
      }
    }

    method StartAfresh(r: RxEntry, ghost e: Sample)
      requires Shows(r, e) && |e.out| <= 12 && e.q < RX_STATES && state == e.q
      requires msg == nxt == None && Settled()
      modifies `mode, `residue, `rbits, `bytes, `bcc, `pending
      ensures Valid() && Abs() == NewFrame(old(Abs()), e)
    {
      hide Val, StoreAfter, BeginFrame;
      mode, residue, rbits, bytes, bcc, pending := Sync, 0, 0, 0, 0xffff, [];
      if r.sync {
        BeginCollecting(r, e);
      }
    }

    /** The end of a frame: deliver it or report why not, and start afresh. */
    method EndOfFrame(r: RxEntry, ghost e: Sample, canPut: bool)
      requires Ready() && Shows(r, e) && |e.out| <= 12 && e.q < RX_STATES && state == e.q
      requires mode == Mof && Collecting() && Settled()
      modifies this
      ensures Valid() && Abs() == old(EndFrame(config, Abs(), e, canPut))
    {
      hide CrcTable.Complete, RxTable.Complete, Val, MessageCrc, Verdict, StoreAfter, BeginFrame, Accept, Fail;
      ghost var end := (Octets(), pending);
      var v := CheckFrame(canPut);
      if v == NoError {
        RxBuffer();
      } else {
        err := v;
        RxError(v);
      }
      ends := ends + [end];
      StartAfresh(r, e);
    }

    method GiveUp(cause: Cause)
      requires ConfigOk(config) && state < RX_STATES && Settled() && mode == Mof
      modifies `mode, `bytes, `err, `up, `cmp, `repeat, `cmpId, `made, `given, `msg, `nxt, `events
      ensures Valid() && Abs() == Abandon(old(Abs()), cause, old(Octets()))
    {
      hide StoreAfter, Fail;
      err := cause;
      RxError(cause);
      mode, bytes := Hunt, 0;
    }

    /** Count one octet while hunting, and report an error for each full interval. */
    method CountOctet()
      requires ConfigOk(config) && Valid() && mode == Hunt
      modifies `bytes, `up, `cmp, `repeat, `cmpId, `made, `given, `msg, `nxt, `events
      ensures Valid() && Abs() == Hunting(config, old(Abs()))
    {
      hide StoreAfter, Fail;
      if config.counting {
        ghost var n := bytes;
        bytes := bytes + 1;
        while bytes >= config.count
          invariant Settled() && msg == nxt == None
          invariant n < config.count
          invariant || (bytes == n + 1 && events == old(events))
                    || (n + 1 >= config.count && bytes == n + 1 - config.count &&
                        events == old(events) + [Bad(err, [])])
          decreases bytes
        {
          assert Octets() == [];
          RxError(err);
          bytes := bytes - config.count;
        }
      }
    }

    method MiddleOfFrame(r: RxEntry, ghost e: Sample, canPut: bool)
      requires Ready() && Shows(r, e) && |e.out| <= 12 && e.q < RX_STATES && state == e.q
      requires mode == Mof && Collecting() && rbits <= 16 && Settled()
      modifies this
      ensures Valid()
      ensures Abs() == old(
        var s := if e.sync then Abs() else Abs().(rest := Abs().rest + e.out);
        if e.flag then EndFrame(config, s, e, canPut)
        else if e.hunt || e.idle then Abandon(s, HdlcAbort, s.octets)
        else
          var d := Drain(config.mlen, s.octets, s.rest);
          if d.2 then Abandon(s, Format, d.0) else s.(octets := d.0, rest := d.1))
    {
      hide CrcTable.Complete, RxTable.Complete, Val, MessageCrc, EndFrame, Drain, StoreAfter;
      if !r.sync && r.bitLength > 0 {
        Append(r, e);
      }
      assert e.out == [] ==> pending + e.out == pending;
      if r.flag {
        EndOfFrame(r, e, canPut);
      } else if r.hunt || r.idle {
        GiveUp(HdlcAbort);
      } else {
        var long := DrainOctets();
        if long {
          GiveUp(Format);
        }
      }
    }

    /** One octet of a receive block. */
    method RxSample(o: octet, canPut: bool)
      requires Ready() && Valid()
      modifies this
      ensures Valid()
      ensures Abs() == old(SampleStep(config, Abs(), SampleBits(config.width, o), canPut))
    {
      hide CrcTable.Complete, RxTable.Complete, Val, MessageCrc, EndFrame, Drain, StoreAfter;
      hide FeedAll, BeginFrame, NewFrame, Hunting, Abandon, Digits, Reverse;
      var index := Transmitting.Rev(o);
      DigitsPrefix(index, config.width, 8);
      LookUp(rxTable, config.width, state, index);
      var r := rxTable[state * 256 + index];
      ghost var e := FeedAll(Begin(state), SampleBits(config.width, o));
      assert Shows(r, e);
      state := r.state;
      match mode {
        case Mof =>
          MiddleOfFrame(r, e, canPut);
        case Sync =>
          if !r.hunt && !r.idle {
            BeginCollecting(r, e);
          } else {
            mode, bytes := Hunt, 0;
          }
        case Hunt =>
          if r.flag {
            StartAfresh(r, e);
          } else {
            CountOctet();
          }
      }
    }

    /** One receive block. */
    method RxBlock(octets: seq<octet>, canPut: bool)
      requires Ready() && Valid()
      modifies this
      ensures Valid()
      ensures Abs() == BlockRun(config, old(Abs()).(err := NoError), octets, canPut)
    {
      hide CrcTable.Complete, RxTable.Complete, Val, MessageCrc, SampleStep, StoreAfter;
      err := NoError;
      ghost var s := Abs();
      var i := 0;
      while i < |octets|
        invariant 0 <= i <= |octets| && Valid()
        invariant Abs() == BlockRun(config, s, octets[..i], canPut)
      {
        assert octets[..i + 1][..i] == octets[..i];
        RxSample(octets[i], canPut);
        i := i + 1;
      }
      assert octets[..i] == octets;
    }
  }
}
