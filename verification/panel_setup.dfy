/**
 * Bringing the panel up: setup of ac073tc1.go, the reset pulse and then the
 * controller's initialisation table, each write fatal on failure.
 */
module PanelSetup {
  import opened Wrappers
  import opened Kernel
  import opened Run
  import opened Protocol
  import opened PanelReset
  import Canvas

  /** The controller's fixed initialisation table, in the order it is sent. */
  const InitCommands: seq<Command> := [
    Command(CMDH, Some([0x49, 0x55, 0x20, 0x08, 0x09, 0x18])),
    Command(PWR, Some([0x3F, 0x00, 0x32, 0x2A, 0x0E, 0x2A])),
    Command(PSR, Some([0x5F, 0x69])),
    Command(POFS, Some([0x00, 0x54, 0x00, 0x44])),
    Command(BTST1, Some([0x40, 0x1F, 0x1F, 0x2C])),
    Command(BTST2, Some([0x6F, 0x1F, 0x16, 0x25])),
    Command(BTST3, Some([0x6F, 0x1F, 0x1F, 0x22])),
    Command(IPC, Some([0x00, 0x04])),
    Command(PLL, Some([0x02])),
    Command(TSE, Some([0x00])),
    Command(CDI, Some([0x3F])),
    Command(TCON, Some([0x02, 0x00])),
    Command(TRES, Some([0x03, 0x20, 0x01, 0xE0])),
    Command(VDCS, Some([0x1E])),
    Command(TVDCS, Some([0x00])),
    Command(AGID, Some([0x00])),
    Command(PWS, Some([0x2F])),
    Command(CCSET, Some([0x00])),
    Command(TSSET, Some([0x00]))
  ]

  function CommandStep(spi: int, pin: int, reply: nat -> Reply): (Command, nat) -> Outcome {
    (c: Command, n: nat) => WriteOutcome(spi, pin, c, reply, n)
  }

  lemma CommandStepIs(spi: int, pin: int, reply: nat -> Reply, c: Command, n: nat)
    ensures CommandStep(spi, pin, reply)(c, n) == WriteOutcome(spi, pin, c, reply, n)
  {
  }

  /** The table loop of setup: write each command in turn; a failed write is fatal. */
  method Initialise(k: Host, spi: int, pin: int, table: seq<Command>) returns (err: Option<Error>)
    modifies k
    ensures var o := RunOutcome(CommandStep(spi, pin, k.reply), table, |old(k.trace)|);
      k.trace == old(k.trace) + o.events && err == o.err
  {
    ghost var m := |k.trace|;
    assert table[..0] == [];
    var i := 0;
    while i < |table|
      invariant 0 <= i <= |table|
      invariant RunOutcome(CommandStep(spi, pin, k.reply), table[..i], m).err.None?
      invariant k.trace == old(k.trace) + RunOutcome(CommandStep(spi, pin, k.reply), table[..i], m).events
    {
      ghost var t0 := k.trace;
      var e := Write(k, spi, pin, table[i].op, table[i].data);
      RunStep(CommandStep(spi, pin, k.reply), table, i, m, old(k.trace), t0, WriteOutcome(spi, pin, table[i], k.reply, |t0|), k.trace);
      if e.Some? {
        return e;
      }
      i := i + 1;
    }
    assert table[..i] == table;
    return None;
  }

  /** What setup does: the reset pulse and then, if it went through, the initialisation table. */
  function SetupOutcome(spi: int, reset: int, data: int, table: seq<Command>, reply: nat -> Reply, n: nat): Outcome {
    var r := ResetOutcome(reply, reset, data, n);
    Then(r, RunOutcome(CommandStep(spi, data, reply), table, n + |r.events|))
  }

  /** The two phases of setup joined, over trace snapshots. */
  lemma SetupJoin(spi: int, reset: int, data: int, table: seq<Command>, reply: nat -> Reply,
                  base: seq<Event>, t0: seq<Event>, e0: Option<Error>, t1: seq<Event>, e1: Option<Error>)
    requires var r := ResetOutcome(reply, reset, data, |base|);
      t0 == base + r.events && e0 == r.err
    requires e0.None? ==> var w := RunOutcome(CommandStep(spi, data, reply), table, |t0|);
      t1 == t0 + w.events && e1 == w.err
    ensures var o := SetupOutcome(spi, reset, data, table, reply, |base|);
      if e0.Some? then t0 == base + o.events && e0 == o.err else t1 == base + o.events && e1 == o.err
  {
    var r := ResetOutcome(reply, reset, data, |base|);
    ThenStep(r, RunOutcome(CommandStep(spi, data, reply), table, |t0|), base, t0, e0, t1, e1);
  }

  /**
   * Resets the controller and sends it the initialisation table; the first
   * failing call ends setup with its error.
   */
  method Setup(k: Host, spi: int, reset: int, data: int) returns (err: Option<Error>)
    modifies k
    ensures var o := SetupOutcome(spi, reset, data, InitCommands, k.reply, |old(k.trace)|);
      k.trace == old(k.trace) + o.events && err == o.err
  {
    err := Reset(k, reset, data);
    ghost var t0, e0 := k.trace, err;
    if err.Some? {
      SetupJoin(spi, reset, data, InitCommands, k.reply, old(k.trace), t0, e0, t0, e0);
      return;
    }
    err := Initialise(k, spi, data, InitCommands);
    SetupJoin(spi, reset, data, InitCommands, k.reply, old(k.trace), t0, e0, k.trace, err);
  }

  // ----- properties ----------------------------------------------------------------

  /** The calls a table of commands makes when every write goes through. */
  function TableEvents(spi: int, pin: int, table: seq<Command>): seq<Event>
    decreases |table|
  {
    if table == [] then [] else CommandEvents(spi, pin, table[0]) + TableEvents(spi, pin, table[1..])
  }

  /** When the kernel accepts every call, each command of the table is written in order and nothing fails. */
  lemma {:induction false} TableSucceeds(spi: int, pin: int, table: seq<Command>, reply: nat -> Reply, n: nat)
    requires forall p :: n <= p ==> reply(p).errno == 0
    ensures RunOutcome(CommandStep(spi, pin, reply), table, n) == Outcome(TableEvents(spi, pin, table), None)
    decreases |table|
  {
    if table != [] {
      WriteSucceeds(spi, pin, table[0], reply, n);
      TableSucceeds(spi, pin, table[1..], reply, n + |CommandEvents(spi, pin, table[0])|);
    }
  }

  /**
   * Setup, when the kernel accepts every call: the seven reset steps, then
   * every command of the table in order, and no error.
   */
  lemma SetupSucceeds(spi: int, reset: int, data: int, table: seq<Command>, reply: nat -> Reply, n: nat)
    requires forall p :: n <= p ==> reply(p).errno == 0
    ensures SetupOutcome(spi, reset, data, table, reply, n) ==
      Outcome(SignalEvents(ResetSignals(reset, data)) + TableEvents(spi, data, table), None)
  {
    SignalsSucceed(reply, ResetSignals(reset, data), n);
    TableSucceeds(spi, data, table, reply, n + 7);
  }

  /** A failed reset pulse ends setup: no command of the table is sent, and its error is setup's. */
  lemma SetupStopsAtReset(spi: int, reset: int, data: int, table: seq<Command>, reply: nat -> Reply, n: nat)
    requires ResetOutcome(reply, reset, data, n).err.Some?
    ensures SetupOutcome(spi, reset, data, table, reply, n) == ResetOutcome(reply, reset, data, n)
  {
  }

  /**
   * A setup that fails after a good reset pulse ends with the write of
   * table entry `i`, after every earlier entry went through; no later
   * entry is sent.
   */
  lemma SetupStopsAtCommand(spi: int, reset: int, data: int, table: seq<Command>, reply: nat -> Reply, n: nat) returns (i: nat)
    requires ResetOutcome(reply, reset, data, n).err.None?
    requires SetupOutcome(spi, reset, data, table, reply, n).err.Some?
    ensures i < |table|
    ensures var r := ResetOutcome(reply, reset, data, n);
      var pre := RunOutcome(CommandStep(spi, data, reply), table[..i], n + |r.events|);
      var w := WriteOutcome(spi, data, table[i], reply, n + |r.events| + |pre.events|);
      pre.err.None? && w.err.Some? &&
      SetupOutcome(spi, reset, data, table, reply, n) == Outcome(r.events + (pre.events + w.events), w.err)
  {
    var r := ResetOutcome(reply, reset, data, n);
    var m := n + |r.events|;
    i := ThenFailure(r, CommandStep(spi, data, reply), table, n);
    var pre := RunOutcome(CommandStep(spi, data, reply), table[..i], m);
    CommandStepIs(spi, data, reply, table[i], m + |pre.events|);
  }

  /** The width and height as the two big-endian bytes each of a TRES payload. */
  function BigEndian16(v: nat): seq<bv8>
    requires v < 0x1_0000
  {
    [(v / 256) as bv8, (v % 256) as bv8]
  }

  /** The resolution entry of the initialisation table sets the panel to the canvas size. */
  lemma TresIsResolution()
    ensures |InitCommands| == 19 && InitCommands[12].op == TRES
    ensures InitCommands[12].data == Some(BigEndian16(Canvas.Width) + BigEndian16(Canvas.Height))
  {
    assert BigEndian16(Canvas.Width) == [0x03, 0x20];
    assert BigEndian16(Canvas.Height) == [0x01, 0xE0];
    var w: seq<bv8>, h: seq<bv8> := [0x03, 0x20], [0x01, 0xE0];
    assert w + h == [0x03, 0x20, 0x01, 0xE0];
    assert InitCommands[12] == Command(TRES, Some([0x03, 0x20, 0x01, 0xE0]));
  }
}
