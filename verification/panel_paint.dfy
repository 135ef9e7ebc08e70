/**
 * Painting a packed frame: paint of ac073tc1.go, four commands each
 * followed by a wait for the controller; a failed write is fatal
 * (`log.Fatal`).
 */
module PanelPaint {
  import opened Wrappers
  import opened Kernel
  import opened Run
  import opened Protocol

  /** A step of paint: a command, then a fixed wait in milliseconds for the controller. */
  datatype PaintStep = PaintStep(cmd: Command, delay: nat)

  /**
   * The paint table for a packed frame: load the frame, power on, refresh
   * (35 s) and power off, with 1 s waits after the others.
   */
  function PaintSteps(frame: seq<bv8>): seq<PaintStep> {
    [PaintStep(Command(DTM, Some(frame)), 1000),
     PaintStep(Command(PON, None), 1000),
     PaintStep(Command(DRF, Some([0x00])), 35000),
     PaintStep(Command(POF, Some([0x00])), 1000)]
  }

  /** What one paint step does: the write and, unless it failed, the wait. */
  function PaintOutcome(spi: int, pin: int, reply: nat -> Reply, s: PaintStep, n: nat): Outcome {
    var w := WriteOutcome(spi, pin, s.cmd, reply, n);
    Then(w, Outcome([SleepCall(s.delay)], None))
  }

  function PaintStepFn(spi: int, pin: int, reply: nat -> Reply): (PaintStep, nat) -> Outcome {
    (s: PaintStep, n: nat) => PaintOutcome(spi, pin, reply, s, n)
  }

  /** Sends a packed frame to the panel and refreshes it; a failed write is fatal. */
  method Paint(k: Host, spi: int, pin: int, frame: seq<bv8>) returns (err: Option<Error>)
    modifies k
    ensures var o := RunOutcome(PaintStepFn(spi, pin, k.reply), PaintSteps(frame), |old(k.trace)|);
      k.trace == old(k.trace) + o.events && err == o.err
  {
    var steps := PaintSteps(frame);
    ghost var m := |k.trace|;
    assert steps[..0] == [];
    var i := 0;
    while i < |steps|
      invariant 0 <= i <= |steps|
      invariant RunOutcome(PaintStepFn(spi, pin, k.reply), steps[..i], m).err.None?
      invariant k.trace == old(k.trace) + RunOutcome(PaintStepFn(spi, pin, k.reply), steps[..i], m).events
    {
      ghost var t0 := k.trace;
      var e := Write(k, spi, pin, steps[i].cmd.op, steps[i].cmd.data);
      ghost var t1 := k.trace;
      if e.None? {
        k.Sleep(steps[i].delay);
      }
      ThenStep(WriteOutcome(spi, pin, steps[i].cmd, k.reply, |t0|), Outcome([SleepCall(steps[i].delay)], None), t0, t1, e, k.trace, None);
      RunStep(PaintStepFn(spi, pin, k.reply), steps, i, m, old(k.trace), t0, PaintOutcome(spi, pin, k.reply, steps[i], |t0|), k.trace);
      if e.Some? {
        return e;
      }
      i := i + 1;
    }
    assert steps[..i] == steps;
    return None;
  }

  // ----- properties ----------------------------------------------------------------

  /** The calls a paint table makes when every write goes through. */
  function PaintEvents(spi: int, pin: int, steps: seq<PaintStep>): seq<Event>
    decreases |steps|
  {
    if steps == [] then []
    else CommandEvents(spi, pin, steps[0].cmd) + [SleepCall(steps[0].delay)] + PaintEvents(spi, pin, steps[1..])
  }

  /** When the kernel accepts every call, each step is written and then waited for, in order. */
  lemma {:induction false} PaintTableSucceeds(spi: int, pin: int, steps: seq<PaintStep>, reply: nat -> Reply, n: nat)
    requires forall p :: n <= p ==> reply(p).errno == 0
    ensures RunOutcome(PaintStepFn(spi, pin, reply), steps, n) == Outcome(PaintEvents(spi, pin, steps), None)
    decreases |steps|
  {
    if steps != [] {
      var c := steps[0].cmd;
      WriteSucceeds(spi, pin, c, reply, n);
      PaintTableSucceeds(spi, pin, steps[1..], reply, n + |CommandEvents(spi, pin, c)| + 1);
    }
  }

  /**
   * Paint, when the kernel accepts every call: the frame, power on, refresh
   * and power off, each followed by its wait, the 35 s one right after the
   * refresh.
   */
  lemma PaintSucceeds(spi: int, pin: int, frame: seq<bv8>, reply: nat -> Reply, n: nat)
    requires forall p :: n <= p ==> reply(p).errno == 0
    ensures RunOutcome(PaintStepFn(spi, pin, reply), PaintSteps(frame), n) == Outcome(
      CommandEvents(spi, pin, Command(DTM, Some(frame))) + [SleepCall(1000)] + (
      CommandEvents(spi, pin, Command(PON, None)) + [SleepCall(1000)] + (
      CommandEvents(spi, pin, Command(DRF, Some([0x00]))) + [SleepCall(35000)] + (
      CommandEvents(spi, pin, Command(POF, Some([0x00]))) + [SleepCall(1000)]))), None)
  {
    var steps := PaintSteps(frame);
    PaintTableSucceeds(spi, pin, steps, reply, n);
    assert steps[1..][1..][1..][1..] == [];
    var e3 := CommandEvents(spi, pin, Command(POF, Some([0x00]))) + [SleepCall(1000)];
    assert PaintEvents(spi, pin, steps[1..][1..][1..]) == e3 + [];
    var e2 := CommandEvents(spi, pin, Command(DRF, Some([0x00]))) + [SleepCall(35000)] + e3;
    assert PaintEvents(spi, pin, steps[1..][1..]) == e2;
    assert PaintEvents(spi, pin, steps[1..]) == CommandEvents(spi, pin, Command(PON, None)) + [SleepCall(1000)] + e2;
  }

  /**
   * A failed paint ends with the failing write: every earlier step went
   * through, and neither the failing step's wait nor any later step happens.
   */
  lemma PaintStopsAtFailure(spi: int, pin: int, frame: seq<bv8>, reply: nat -> Reply, n: nat) returns (i: nat)
    requires RunOutcome(PaintStepFn(spi, pin, reply), PaintSteps(frame), n).err.Some?
    ensures i < 4
    ensures var steps := PaintSteps(frame);
      var pre := RunOutcome(PaintStepFn(spi, pin, reply), steps[..i], n);
      var w := WriteOutcome(spi, pin, steps[i].cmd, reply, n + |pre.events|);
      pre.err.None? && w.err.Some? &&
      RunOutcome(PaintStepFn(spi, pin, reply), steps, n) == Outcome(pre.events + w.events, w.err)
  {
    i := RunFailure(PaintStepFn(spi, pin, reply), PaintSteps(frame), n);
  }
}
