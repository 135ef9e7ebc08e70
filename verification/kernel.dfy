/**
 * The operating system as the program sees it: every system call the
 * program makes is appended to a trace, and what the kernel answers is
 * given by an oracle indexed by the call's position in that trace. Device
 * files, ioctls and sleeps therefore have no behaviour of their own here;
 * every property of the program is a claim about the trace and the results.
 */
module Kernel {
  import opened Uapi
  import GpioUapi
  import SpiUapi

  /** The record an ioctl hands to the kernel. */
  datatype Arg =
    | GetLine(request: GpioUapi.LineRequest)
    | SetValues(values: GpioUapi.LineValues)
    | WrMode(mode: bv8)
    | WrMaxSpeedHz(hz: uint32)
    | Message(transfer: SpiUapi.Transfer)

  /** One system call, as issued. */
  datatype Event =
    | OpenCall(path: string)
    | CloseCall(fd: int)
    | IoctlCall(fd: int, request: nat, arg: Arg)
    | SleepCall(ms: nat)

  /** The kernel's answer to one call: an errno (0 on success) and the descriptor it hands back, if any. */
  datatype Reply = Reply(errno: int, fd: int)

  /** The errors the program reports, each with the errno that caused it. */
  datatype Error =
    | OpenFailed(path: string, errno: int)
    | LineRequestFailed(line: bv32, errno: int)
    | LineWriteFailed(errno: int)
    | ModeFailed(mode: bv8, errno: int)
    | SpeedFailed(hz: uint32, errno: int)
    | TransferFailed(errno: int)

  class Host {
    /** Every call made so far, oldest first. */
    var trace: seq<Event>
    /** The kernel's answer to the call at each trace position. */
    const reply: nat -> Reply

    constructor (reply: nat -> Reply)
      ensures trace == [] && this.reply == reply
    {
      this.trace := [];
      this.reply := reply;
    }

    /** `open(path, O_RDWR)`: the descriptor, valid when errno is 0. */
    method Open(path: string) returns (fd: int, errno: int)
      modifies this
      ensures trace == old(trace) + [OpenCall(path)]
      ensures errno == reply(|old(trace)|).errno && fd == reply(|old(trace)|).fd
    {
      var r := reply(|trace|);
      trace := trace + [OpenCall(path)];
      fd, errno := r.fd, r.errno;
    }

    /** `close(fd)`; its result is never looked at by the program. */
    method Close(fd: int)
      modifies this
      ensures trace == old(trace) + [CloseCall(fd)]
    {
      trace := trace + [CloseCall(fd)];
    }

    /** `ioctl(fd, request, &arg)`: the kernel's reply to this call. */
    method Ioctl(fd: int, request: nat, arg: Arg) returns (r: Reply)
      modifies this
      ensures trace == old(trace) + [IoctlCall(fd, request, arg)]
      ensures r == reply(|old(trace)|)
    {
      r := reply(|trace|);
      trace := trace + [IoctlCall(fd, request, arg)];
    }

    /** `time.Sleep`, in milliseconds. */
    method Sleep(ms: nat)
      modifies this
      ensures trace == old(trace) + [SleepCall(ms)]
    {
      trace := trace + [SleepCall(ms)];
    }
  }
}
