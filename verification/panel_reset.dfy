/**
 * The reset pulse that starts setup in ac073tc1.go: the data/command line
 * to command mode, then the reset line high, low and high again with
 * pauses. Any failed line write is fatal (`must`).
 */
module PanelReset {
  import opened Wrappers
  import opened Kernel
  import opened Run
  import Gpio

  /** A step of the reset pulse: drive a line, or wait. */
  datatype Signal = Drive(fd: int, level: bv64) | Pause(ms: nat)

  /** What one reset step does when its call is at trace position `n`; a failed line write is fatal. */
  function SignalOutcome(reply: nat -> Reply, s: Signal, n: nat): Outcome {
    match s
    case Drive(fd, level) =>
      Outcome([Gpio.SetCall(fd, level)], if reply(n).errno != 0 then Some(LineWriteFailed(reply(n).errno)) else None)
    case Pause(ms) => Outcome([SleepCall(ms)], None)
  }

  function SignalStep(reply: nat -> Reply): (Signal, nat) -> Outcome {
    (s: Signal, n: nat) => SignalOutcome(reply, s, n)
  }

  /**
   * The start of setup: command mode on the data/command line, then the
   * reset line high, low and high again, with 100 ms, 100 ms and 1 s pauses.
   */
  function ResetSignals(reset: int, data: int): seq<Signal> {
    [Drive(data, 0), Drive(reset, 1), Pause(100), Drive(reset, 0), Pause(100), Drive(reset, 1), Pause(1000)]
  }

  /** What the reset pulse does from trace position `n`. */
  function ResetOutcome(reply: nat -> Reply, reset: int, data: int, n: nat): Outcome {
    RunOutcome(SignalStep(reply), ResetSignals(reset, data), n)
  }

  /** Whether the kernel fails the line write at trace position `n`, and with what error. */
  function LineFailure(reply: nat -> Reply, n: nat): Option<Error> {
    if reply(n).errno != 0 then Some(LineWriteFailed(reply(n).errno)) else None
  }

  /**
   * The reset pulse from trace position `n`, path by path as the
   * straight-line code takes it: it stops at the first line write the
   * kernel fails.
   */
  lemma ResetPaths(reply: nat -> Reply, reset: int, data: int, n: nat)
    ensures var o := ResetOutcome(reply, reset, data, n);
      var s0, s1, s2 := Gpio.SetCall(data, 0), Gpio.SetCall(reset, 1), Gpio.SetCall(reset, 0);
      (LineFailure(reply, n).Some? ==>
        o == Outcome([s0], LineFailure(reply, n))) &&
      (LineFailure(reply, n).None? && LineFailure(reply, n + 1).Some? ==>
        o == Outcome([s0, s1], LineFailure(reply, n + 1))) &&
      (LineFailure(reply, n).None? && LineFailure(reply, n + 1).None? && LineFailure(reply, n + 3).Some? ==>
        o == Outcome([s0, s1, SleepCall(100), s2], LineFailure(reply, n + 3))) &&
      (LineFailure(reply, n).None? && LineFailure(reply, n + 1).None? && LineFailure(reply, n + 3).None? && LineFailure(reply, n + 5).Some? ==>
        o == Outcome([s0, s1, SleepCall(100), s2, SleepCall(100), s1], LineFailure(reply, n + 5))) &&
      (LineFailure(reply, n).None? && LineFailure(reply, n + 1).None? && LineFailure(reply, n + 3).None? && LineFailure(reply, n + 5).None? ==>
        o == Outcome([s0, s1, SleepCall(100), s2, SleepCall(100), s1, SleepCall(1000)], None))
  {
    var ss := ResetSignals(reset, data);
    var j := if LineFailure(reply, n).Some? then 0
      else if LineFailure(reply, n + 1).Some? then 1
      else if LineFailure(reply, n + 3).Some? then 3
      else if LineFailure(reply, n + 5).Some? then 5
      else 7;
    forall i | 0 <= i < j && ss[i].Drive?
      ensures reply(n + i).errno == 0
    {
      assert i == 0 || i == 1 || i == 3 || i == 5;
    }
    if j < 7 {
      SignalsFail(reply, ss, n, j);
    } else {
      SignalsSucceed(reply, ss, n);
    }
    var es := SignalEvents(ss);
    assert es == [Gpio.SetCall(data, 0), Gpio.SetCall(reset, 1), SleepCall(100), Gpio.SetCall(reset, 0), SleepCall(100), Gpio.SetCall(reset, 1), SleepCall(1000)];
    if j < 7 {
      assert SignalEvents(ss[..j + 1]) == es[..j + 1];
    }
  }

  /** The traces of ResetPaths, appended one call at a time as the straight-line code appends them. */
  lemma AppendEach(base: seq<Event>, s0: Event, s1: Event, s2: Event)
    ensures base + [s0, s1] == base + [s0] + [s1]
    ensures base + [s0, s1, SleepCall(100), s2] == base + [s0] + [s1] + [SleepCall(100)] + [s2]
    ensures base + [s0, s1, SleepCall(100), s2, SleepCall(100), s1] ==
      base + [s0] + [s1] + [SleepCall(100)] + [s2] + [SleepCall(100)] + [s1]
    ensures base + [s0, s1, SleepCall(100), s2, SleepCall(100), s1, SleepCall(1000)] ==
      base + [s0] + [s1] + [SleepCall(100)] + [s2] + [SleepCall(100)] + [s1] + [SleepCall(1000)]
  {
  }

  /** The reset part of setup, straight-line as in the source. */
  method Reset(k: Host, reset: int, data: int) returns (err: Option<Error>)
    modifies k
    ensures var o := ResetOutcome(k.reply, reset, data, |old(k.trace)|);
      k.trace == old(k.trace) + o.events && err == o.err
  {
    ResetPaths(k.reply, reset, data, |k.trace|);
    AppendEach(k.trace, Gpio.SetCall(data, 0), Gpio.SetCall(reset, 1), Gpio.SetCall(reset, 0));
    err := Gpio.SetGPIO(k, data, 0);
    if err.Some? { return; }

    err := Gpio.SetGPIO(k, reset, 1);
    if err.Some? { return; }
    k.Sleep(100);
    err := Gpio.SetGPIO(k, reset, 0);
    if err.Some? { return; }
    k.Sleep(100);
    err := Gpio.SetGPIO(k, reset, 1);
    if err.Some? { return; }
    k.Sleep(1000);
  }

  // ----- properties ----------------------------------------------------------------

  /** The call a reset step makes. */
  function SignalEvent(s: Signal): Event {
    match s
    case Drive(fd, level) => Gpio.SetCall(fd, level)
    case Pause(ms) => SleepCall(ms)
  }

  function SignalEvents(ss: seq<Signal>): (es: seq<Event>)
    ensures |es| == |ss|
  {
    seq(|ss|, i requires 0 <= i < |ss| => SignalEvent(ss[i]))
  }

  /** When the kernel accepts the line writes, every reset step runs and nothing fails. */
  lemma {:induction false} SignalsSucceed(reply: nat -> Reply, ss: seq<Signal>, n: nat)
    requires forall i :: 0 <= i < |ss| && ss[i].Drive? ==> reply(n + i).errno == 0
    ensures RunOutcome(SignalStep(reply), ss, n) == Outcome(SignalEvents(ss), None)
    decreases |ss|
  {
    if ss != [] {
      forall i | 0 <= i < |ss| - 1 && ss[1..][i].Drive?
        ensures reply(n + 1 + i).errno == 0
      {
        assert ss[i + 1] == ss[1..][i];
      }
      SignalsSucceed(reply, ss[1..], n + 1);
      assert SignalEvents(ss) == [SignalEvent(ss[0])] + SignalEvents(ss[1..]);
    }
  }

  /**
   * The reset steps run up to and including step `j`, a line write the
   * kernel fails, after the earlier line writes went through; they stop
   * there with its error.
   */
  lemma {:induction false} SignalsFail(reply: nat -> Reply, ss: seq<Signal>, n: nat, j: nat)
    requires j < |ss| && ss[j].Drive? && reply(n + j).errno != 0
    requires forall i :: 0 <= i < j && ss[i].Drive? ==> reply(n + i).errno == 0
    ensures RunOutcome(SignalStep(reply), ss, n) == Outcome(SignalEvents(ss[..j + 1]), Some(LineWriteFailed(reply(n + j).errno)))
    decreases j
  {
    if j == 0 {
      assert SignalEvents(ss[..1]) == [SignalEvent(ss[0])];
    } else {
      forall i | 0 <= i < j - 1 && ss[1..][i].Drive?
        ensures reply(n + 1 + i).errno == 0
      {
        assert ss[i + 1] == ss[1..][i];
      }
      SignalsFail(reply, ss[1..], n + 1, j - 1);
      SignalEventsCons(ss, j);
    }
  }

  lemma SignalEventsCons(ss: seq<Signal>, j: nat)
    requires j < |ss|
    ensures SignalEvents(ss[..j + 1]) == [SignalEvent(ss[0])] + SignalEvents(ss[1..][..j])
  {
    assert ss[1..][..j] == ss[1..j + 1];
  }

  /**
   * The reset pulse, when the kernel accepts its line writes: select line
   * low, reset high, 100 ms, reset low, 100 ms, reset high, 1 s.
   */
  lemma ResetSucceeds(reply: nat -> Reply, reset: int, data: int, n: nat)
    requires forall p :: n <= p < n + 7 ==> reply(p).errno == 0
    ensures ResetOutcome(reply, reset, data, n) ==
      Outcome([Gpio.SetCall(data, 0), Gpio.SetCall(reset, 1), SleepCall(100), Gpio.SetCall(reset, 0),
               SleepCall(100), Gpio.SetCall(reset, 1), SleepCall(1000)], None)
  {
    SignalsSucceed(reply, ResetSignals(reset, data), n);
  }
}
