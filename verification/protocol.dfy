/**
 * The AC073TC1A controller's command protocol: how one command and its
 * payload are framed on the bus and the data/command select line (write),
 * the reset pulse and fixed initialisation table (setup), and the fixed
 * paint table with its settle delays (paint).
 *
 * Each operation is specified by a function from the kernel's replies to
 * the calls it makes and the error it returns (an Outcome), and the
 * methods that follow the source step by step are proved to produce
 * exactly that outcome.
 */
module Protocol {
  import opened Wrappers
  import opened Kernel
  import opened Run
  import Gpio
  import Spi
  import SpiUapi

  // Controller opcodes.
  const PSR: bv8 := 0x00
  const PWR: bv8 := 0x01
  const POF: bv8 := 0x02
  const POFS: bv8 := 0x03
  const PON: bv8 := 0x04
  const BTST1: bv8 := 0x05
  const BTST2: bv8 := 0x06
  const DSLP: bv8 := 0x07
  const BTST3: bv8 := 0x08
  const DTM: bv8 := 0x10
  const DSP: bv8 := 0x11
  const DRF: bv8 := 0x12
  const IPC: bv8 := 0x13
  const PLL: bv8 := 0x30
  const TSC: bv8 := 0x40
  const TSE: bv8 := 0x41
  const TSW: bv8 := 0x42
  const TSR: bv8 := 0x43
  const CDI: bv8 := 0x50
  const LPD: bv8 := 0x51
  const TCON: bv8 := 0x60
  const TRES: bv8 := 0x61
  const DAM: bv8 := 0x65
  const REV: bv8 := 0x70
  const FLG: bv8 := 0x71
  const AMV: bv8 := 0x80
  const VV: bv8 := 0x81
  const VDCS: bv8 := 0x82
  const TVDCS: bv8 := 0x84
  const AGID: bv8 := 0x86
  const CMDH: bv8 := 0xAA
  const CCSET: bv8 := 0xE0
  const PWS: bv8 := 0xE3
  const TSSET: bv8 := 0xE6

  /** An opcode and its payload; `None` is Go's nil slice, which is not the same as an empty one. */
  datatype Command = Command(op: bv8, data: Option<seq<bv8>>)

  /** The largest transfer write makes. */
  const BufSize: nat := 4096

  // ----- chunking ------------------------------------------------------------

  function Min(a: int, b: int): int { if a < b then a else b }

  function Concat<T>(xss: seq<seq<T>>): seq<T>
    decreases |xss|
  {
    if xss == [] then [] else xss[0] + Concat(xss[1..])
  }

  /** The pieces write sends a payload in: BufSize bytes at a time, from the front. */
  function Chunks(data: seq<bv8>): seq<seq<bv8>>
    decreases |data|
  {
    if |data| == 0 then []
    else
      var n := Min(|data|, BufSize);
      [data[..n]] + Chunks(data[n..])
  }

  /** The pieces, joined up again, are the payload. */
  lemma {:induction false} ChunksJoin(data: seq<bv8>)
    ensures Concat(Chunks(data)) == data
    decreases |data|
  {
    if |data| > 0 {
      var n := Min(|data|, BufSize);
      ChunksJoin(data[n..]);
      assert Chunks(data)[1..] == Chunks(data[n..]);
      assert data == data[..n] + data[n..];
    }
  }

  /** Every piece is non-empty and at most BufSize long; all but the last are exactly BufSize. */
  lemma {:induction false} ChunksSizes(data: seq<bv8>)
    ensures forall i :: 0 <= i < |Chunks(data)| ==> 0 < |Chunks(data)[i]| <= BufSize
    ensures forall i :: 0 <= i < |Chunks(data)| - 1 ==> |Chunks(data)[i]| == BufSize
    decreases |data|
  {
    if |data| > 0 {
      var n := Min(|data|, BufSize);
      ChunksSizes(data[n..]);
      assert Chunks(data)[1..] == Chunks(data[n..]);
      if |data| > BufSize {
        assert |Chunks(data[n..])| > 0;
      }
    }
  }

  /** A payload of `m` bytes takes the ceiling of m / BufSize transfers. */
  lemma {:induction false} ChunksCount(data: seq<bv8>)
    ensures |Chunks(data)| == (|data| + BufSize - 1) / BufSize
    decreases |data|
  {
    if |data| > 0 {
      var n := Min(|data|, BufSize);
      ChunksCount(data[n..]);
    }
  }

  /** A payload that fits one transfer is sent in one piece. */
  lemma ChunksSingle(data: seq<bv8>)
    requires 0 < |data| <= BufSize
    ensures Chunks(data) == [data]
  {
    assert Min(|data|, BufSize) == |data|;
    assert data[..|data|] == data && data[|data|..] == [];
  }

  /** The transfer calls for a list of pieces, in order. */
  function TransferCalls(spi: int, cs: seq<seq<bv8>>): (es: seq<Event>)
    ensures |es| == |cs|
  {
    seq(|cs|, i requires 0 <= i < |cs| => Spi.TransferCall(spi, cs[i]))
  }

  /**
   * The position, among the `count` calls from trace position `start` on,
   * of the first one the kernel fails; `count` when none fails.
   */
  function FirstFailure(reply: nat -> Reply, start: nat, count: nat): (j: nat)
    ensures j <= count
    ensures j < count ==> reply(start + j).errno != 0
    decreases count
  {
    if count == 0 || reply(start).errno != 0 then 0
    else 1 + FirstFailure(reply, start + 1, count - 1)
  }

  /** Every call before the first failure succeeded. */
  lemma {:induction false} FirstFailureIsFirst(reply: nat -> Reply, start: nat, count: nat)
    ensures forall p :: start <= p < start + FirstFailure(reply, start, count) ==> reply(p).errno == 0
    decreases count
  {
    if count > 0 && reply(start).errno == 0 {
      FirstFailureIsFirst(reply, start + 1, count - 1);
    }
  }

  /** FirstFailure is the one position with those two properties. */
  lemma {:induction false} FirstFailureUnique(reply: nat -> Reply, start: nat, count: nat, j: nat)
    requires j <= count
    requires forall p :: start <= p < start + j ==> reply(p).errno == 0
    requires j < count ==> reply(start + j).errno != 0
    ensures FirstFailure(reply, start, count) == j
    decreases count
  {
    if j > 0 {
      assert reply(start).errno == 0;
      FirstFailureUnique(reply, start + 1, count - 1, j - 1);
    } else if count > 0 {
      assert reply(start).errno != 0;
    }
  }

  // ----- write -----------------------------------------------------------------

  /**
   * What the payload loop of write does when its first transfer is at trace
   * position `n`: send the front BufSize bytes (or all, if fewer are left),
   * stop if the kernel fails that transfer, and otherwise go on with the
   * rest.
   */
  function SendOutcome(spi: int, data: seq<bv8>, reply: nat -> Reply, n: nat): Outcome
    decreases |data|
  {
    if |data| == 0 then Outcome([], None)
    else
      var chunk := Min(|data|, BufSize);
      var t := Spi.TransferCall(spi, data[..chunk]);
      if reply(n).errno != 0 then Outcome([t], Some(TransferFailed(reply(n).errno)))
      else
        var r := SendOutcome(spi, data[chunk..], reply, n + 1);
        Outcome([t] + r.events, r.err)
  }

  /**
   * The payload loop seen whole: send `cs` in order up to and including
   * the first piece the kernel fails, and return that failure.
   */
  function PiecesOutcome(spi: int, cs: seq<seq<bv8>>, reply: nat -> Reply, n: nat): Outcome {
    var j := FirstFailure(reply, n, |cs|);
    if j < |cs| then Outcome(TransferCalls(spi, cs[..j + 1]), Some(TransferFailed(reply(n + j).errno)))
    else Outcome(TransferCalls(spi, cs), None)
  }

  /** PiecesOutcome taken one piece at a time. */
  lemma PiecesCons(spi: int, c: seq<bv8>, cs: seq<seq<bv8>>, reply: nat -> Reply, n: nat)
    ensures var t := Spi.TransferCall(spi, c);
      var r := PiecesOutcome(spi, cs, reply, n + 1);
      PiecesOutcome(spi, [c] + cs, reply, n) ==
        if reply(n).errno != 0 then Outcome([t], Some(TransferFailed(reply(n).errno)))
        else Outcome([t] + r.events, r.err)
  {
    var all := [c] + cs;
    assert all[1..] == cs;
    if reply(n).errno != 0 {
      assert FirstFailure(reply, n, |all|) == 0;
      assert all[..1] == [c];
    } else {
      var j := FirstFailure(reply, n + 1, |cs|);
      assert FirstFailure(reply, n, |all|) == j + 1;
      if j < |cs| {
        assert all[..j + 2] == [c] + cs[..j + 1];
        TransferCallsCons(spi, c, cs[..j + 1]);
      } else {
        TransferCallsCons(spi, c, cs);
      }
    }
  }

  lemma TransferCallsCons(spi: int, c: seq<bv8>, cs: seq<seq<bv8>>)
    ensures TransferCalls(spi, [c] + cs) == [Spi.TransferCall(spi, c)] + TransferCalls(spi, cs)
  {
  }

  /** The payload loop sends exactly the pieces Chunks makes, stopping at the first failure. */
  lemma {:induction false} SendByChunks(spi: int, data: seq<bv8>, reply: nat -> Reply, n: nat)
    ensures SendOutcome(spi, data, reply, n) == PiecesOutcome(spi, Chunks(data), reply, n)
    decreases |data|
  {
    if |data| > 0 {
      var chunk := Min(|data|, BufSize);
      assert Chunks(data) == [data[..chunk]] + Chunks(data[chunk..]);
      PiecesCons(spi, data[..chunk], Chunks(data[chunk..]), reply, n);
      if reply(n).errno == 0 {
        SendByChunks(spi, data[chunk..], reply, n + 1);
      }
    } else {
      assert FirstFailure(reply, n, 0) == 0;
    }
  }

  /**
   * What write does with a payload once the opcode is sent, from trace
   * position `n` on: raise the select line, send the pieces until one
   * fails, and lower the line again whatever happened. The select-line
   * calls' own errors are ignored.
   */
  function PayloadOutcome(spi: int, pin: int, data: seq<bv8>, reply: nat -> Reply, n: nat): Outcome {
    var s := SendOutcome(spi, data, reply, n + 1);
    Outcome([Gpio.SetCall(pin, 1)] + s.events + [Gpio.SetCall(pin, 0)], s.err)
  }

  /**
   * What write does when its first call is at trace position `n`: send the
   * opcode as a one-byte transfer and stop if that fails; then send the
   * payload, unless it is nil.
   */
  function WriteOutcome(spi: int, pin: int, c: Command, reply: nat -> Reply, n: nat): Outcome {
    var opcode := Spi.TransferCall(spi, [c.op]);
    if reply(n).errno != 0 then Outcome([opcode], Some(TransferFailed(reply(n).errno)))
    else if c.data.None? then Outcome([opcode], None)
    else
      var p := PayloadOutcome(spi, pin, c.data.value, reply, n + 1);
      Outcome([opcode] + p.events, p.err)
  }

  /**
   * One pass of the payload loop, over trace snapshots: the piece at the
   * front of `rest` is sent; it ends the loop with its error if the kernel
   * fails it, and otherwise the loop goes on with the remainder.
   */
  lemma SendStep(spi: int, data: seq<bv8>, rest: seq<bv8>, reply: nat -> Reply, n: nat,
                 base: seq<Event>, done: seq<Event>, t0: seq<Event>, t1: seq<Event>)
    requires |base| == n && |rest| > 0
    requires var r := SendOutcome(spi, rest, reply, n + |done|);
      SendOutcome(spi, data, reply, n) == Outcome(done + r.events, r.err)
    requires t0 == base + done && t1 == t0 + [Spi.TransferCall(spi, rest[..Min(|rest|, BufSize)])]
    ensures var done' := done + [Spi.TransferCall(spi, rest[..Min(|rest|, BufSize)])];
      t1 == base + done' &&
      (reply(|t0|).errno != 0 ==> SendOutcome(spi, data, reply, n) == Outcome(done', Some(TransferFailed(reply(|t0|).errno)))) &&
      (reply(|t0|).errno == 0 ==>
        var r := SendOutcome(spi, rest[Min(|rest|, BufSize)..], reply, n + |done'|);
        SendOutcome(spi, data, reply, n) == Outcome(done' + r.events, r.err))
  {
    var t := Spi.TransferCall(spi, rest[..Min(|rest|, BufSize)]);
    assert t1 == base + (done + [t]);
    if reply(|t0|).errno == 0 {
      var r := SendOutcome(spi, rest[Min(|rest|, BufSize)..], reply, n + |done| + 1);
      assert done + ([t] + r.events) == (done + [t]) + r.events;
    }
  }

  /**
   * Sends `data` in BufSize pieces, stopping at the first failed transfer
   * (the loop of write).
   */
  method SendChunks(k: Host, spi: int, data: seq<bv8>) returns (err: Option<Error>)
    modifies k
    ensures var o := SendOutcome(spi, data, k.reply, |old(k.trace)|);
      k.trace == old(k.trace) + o.events && err == o.err
  {
    ghost var n := |k.trace|;
    ghost var done: seq<Event> := [];
    var rest := data;
    while |rest| > 0
      invariant k.trace == old(k.trace) + done
      invariant var r := SendOutcome(spi, rest, k.reply, n + |done|);
        SendOutcome(spi, data, k.reply, n) == Outcome(done + r.events, r.err)
      decreases |rest|
    {
      var chunk := Min(|rest|, BufSize);
      ghost var t0 := k.trace;
      var written, e := Spi.WriteSPI(k, spi, rest[..chunk]);
      SendStep(spi, data, rest, k.reply, n, old(k.trace), done, t0, k.trace);
      done := done + [Spi.TransferCall(spi, rest[..chunk])];
      if e.Some? {
        return e;
      }
      rest := rest[chunk..];
    }
    return None;
  }

  /** The select-line framing around the payload loop of write, including its deferred lowering. */
  method WritePayload(k: Host, spi: int, pin: int, data: seq<bv8>) returns (err: Option<Error>)
    modifies k
    ensures var o := PayloadOutcome(spi, pin, data, k.reply, |old(k.trace)|);
      k.trace == old(k.trace) + o.events && err == o.err
  {
    var ignored := Gpio.SetGPIO(k, pin, 1);
    err := SendChunks(k, spi, data);
    ignored := Gpio.SetGPIO(k, pin, 0);  // deferred
  }

  /** Sends `cmd` and, unless `data` is nil, its payload; see WriteOutcome. */
  method Write(k: Host, spi: int, pin: int, cmd: bv8, data: Option<seq<bv8>>) returns (err: Option<Error>)
    modifies k
    ensures var o := WriteOutcome(spi, pin, Command(cmd, data), k.reply, |old(k.trace)|);
      k.trace == old(k.trace) + o.events && err == o.err
  {
    var written, e := Spi.WriteSPI(k, spi, [cmd]);
    if e.Some? {
      return e;
    }
    if data.Some? {
      err := WritePayload(k, spi, pin, data.value);
      return err;
    }
    return None;
  }

  // ----- properties of write ---------------------------------------------------

  /** The calls write makes when the kernel accepts every one of them. */
  function CommandEvents(spi: int, pin: int, c: Command): seq<Event> {
    [Spi.TransferCall(spi, [c.op])] +
    if c.data.None? then []
    else [Gpio.SetCall(pin, 1)] + TransferCalls(spi, Chunks(c.data.value)) + [Gpio.SetCall(pin, 0)]
  }

  /** When every call from position `n` on succeeds, write makes exactly CommandEvents and returns nil. */
  lemma WriteSucceeds(spi: int, pin: int, c: Command, reply: nat -> Reply, n: nat)
    requires forall p :: n <= p < n + |CommandEvents(spi, pin, c)| ==> reply(p).errno == 0
    ensures WriteOutcome(spi, pin, c, reply, n) == Outcome(CommandEvents(spi, pin, c), None)
  {
    assert reply(n).errno == 0;
    if c.data.Some? {
      var cs := Chunks(c.data.value);
      assert |CommandEvents(spi, pin, c)| == |cs| + 3;
      FirstFailureUnique(reply, n + 2, |cs|, |cs|);
      SendByChunks(spi, c.data.value, reply, n + 2);
    }
  }

  /**
   * A failed opcode transfer ends write at once: one call, no select-line
   * change, and the transfer's error.
   */
  lemma WriteOpcodeFailure(spi: int, pin: int, c: Command, reply: nat -> Reply, n: nat)
    requires reply(n).errno != 0
    ensures WriteOutcome(spi, pin, c, reply, n) == Outcome([Spi.TransferCall(spi, [c.op])], Some(TransferFailed(reply(n).errno)))
  {
  }

  /**
   * Once the opcode is accepted, a payload is bracketed by the select line:
   * it goes to 1 right after the opcode and back to 0 as the very last call,
   * whether or not a piece failed, and in between come only transfers of
   * the pieces, in order, up to and including the first failed one.
   */
  lemma WriteFramesPayload(spi: int, pin: int, c: Command, reply: nat -> Reply, n: nat)
    requires reply(n).errno == 0 && c.data.Some?
    ensures var o := WriteOutcome(spi, pin, c, reply, n);
      var cs := Chunks(c.data.value);
      var j := FirstFailure(reply, n + 2, |cs|);
      |o.events| >= 3 &&
      o.events[..2] == [Spi.TransferCall(spi, [c.op]), Gpio.SetCall(pin, 1)] &&
      o.events[|o.events| - 1] == Gpio.SetCall(pin, 0) &&
      o.events[2..|o.events| - 1] == TransferCalls(spi, cs[..if j < |cs| then j + 1 else j]) &&
      (o.err.Some? <==> j < |cs|)
  {
    var cs := Chunks(c.data.value);
    SendByChunks(spi, c.data.value, reply, n + 2);
    assert cs[..|cs|] == cs;
  }

  /** A non-nil but empty payload still raises and lowers the select line, with no transfer between. */
  lemma WriteEmptyPayload(spi: int, pin: int, op: bv8, reply: nat -> Reply, n: nat)
    requires reply(n).errno == 0
    ensures WriteOutcome(spi, pin, Command(op, Some([])), reply, n) ==
      Outcome([Spi.TransferCall(spi, [op]), Gpio.SetCall(pin, 1), Gpio.SetCall(pin, 0)], None)
  {
  }

  /** The payload loop looks only at the kernel's answers to its own transfers. */
  lemma {:induction false} SendLocal(spi: int, data: seq<bv8>, r1: nat -> Reply, r2: nat -> Reply, n: nat)
    requires forall p :: n <= p < n + |Chunks(data)| ==> r1(p) == r2(p)
    ensures SendOutcome(spi, data, r1, n) == SendOutcome(spi, data, r2, n)
    decreases |data|
  {
    if |data| > 0 {
      var chunk := Min(|data|, BufSize);
      assert Chunks(data) == [data[..chunk]] + Chunks(data[chunk..]);
      assert r1(n) == r2(n);
      SendLocal(spi, data[chunk..], r1, r2, n + 1);
    }
  }

  /**
   * The kernel's answers to the two select-line calls never change what
   * write does: only the answers to the transfers matter.
   */
  lemma WriteIgnoresSelectLine(spi: int, pin: int, c: Command, r1: nat -> Reply, r2: nat -> Reply, n: nat)
    requires r1(n) == r2(n)
    requires c.data.Some? ==> forall p :: n + 2 <= p < n + 2 + |Chunks(c.data.value)| ==> r1(p) == r2(p)
    ensures WriteOutcome(spi, pin, c, r1, n) == WriteOutcome(spi, pin, c, r2, n)
  {
    if c.data.Some? {
      SendLocal(spi, c.data.value, r1, r2, n + 2);
    }
  }

  /** The payloads of the transfers a successful write makes, joined up, are its data. */
  lemma WriteSendsData(spi: int, pin: int, c: Command)
    requires c.data.Some?
    ensures var es := CommandEvents(spi, pin, c)[2..|CommandEvents(spi, pin, c)| - 1];
      (forall e :: e in es ==> e.IoctlCall? && e.request == SpiUapi.TransferIoctl && e.arg.Message?) &&
      Concat(seq(|es|, i requires 0 <= i < |es| => es[i].arg.transfer.tx)) == c.data.value
  {
    var cs := Chunks(c.data.value);
    var es := CommandEvents(spi, pin, c)[2..|CommandEvents(spi, pin, c)| - 1];
    assert es == TransferCalls(spi, cs);
    assert seq(|es|, i requires 0 <= i < |es| => es[i].arg.transfer.tx) == cs;
    ChunksJoin(c.data.value);
  }
}
