/**
 * Claiming and driving a GPIO output line through the character device:
 * openGPIO and setGPIO of gpio.go.
 */
module Gpio {
  import opened Wrappers
  import opened Kernel
  import opened GpioUapi

  /** The ioctl setGPIO issues to drive the line behind `fd` to `val`. */
  function SetCall(fd: int, val: bv64): Event {
    IoctlCall(fd, LineSetValuesIoctl, SetValues(NewLineValues(val)))
  }

  /** Only bit 0 of the requested value reaches the kernel, and only for the request's first line. */
  lemma SetCallLowBit(fd: int, val: bv64)
    ensures SetCall(fd, val) == SetCall(fd, val & 1)
    ensures SetCall(fd, val).arg.values == LineValues(if val & 1 == 0 then 0 else 1, 1)
  {
  }

  /**
   * Opens the chip, requests `line` as one output line configured by
   * `flags`, and closes the chip again. The line stays claimed through the
   * descriptor the kernel returns in the request record.
   */
  method OpenGPIO(k: Host, dev: string, line: bv32, flags: bv64) returns (fd: int, err: Option<Error>)
    modifies k
    ensures var n := |old(k.trace)|;
      var chip := k.reply(n);
      if chip.errno != 0 then
        k.trace == old(k.trace) + [OpenCall(dev)] && fd == 0 && err == Some(OpenFailed(dev, chip.errno))
      else
        var got := k.reply(n + 1);
        k.trace == old(k.trace) + [OpenCall(dev), IoctlCall(chip.fd, GetLineIoctl, GetLine(NewLineRequest(line, flags))), CloseCall(chip.fd)] &&
        if got.errno != 0 then fd == 0 && err == Some(LineRequestFailed(line, got.errno))
        else fd == got.fd && err == None
  {
    var f, errno := k.Open(dev);
    if errno != 0 {
      return 0, Some(OpenFailed(dev, errno));
    }
    var request := NewLineRequest(line, flags);
    var r := k.Ioctl(f, GetLineIoctl, GetLine(request));
    if r.errno != 0 {
      k.Close(f);  // deferred
      return 0, Some(LineRequestFailed(line, r.errno));
    }
    k.Close(f);  // deferred
    return r.fd, None;
  }

  /** Drives the line behind `fd` to bit 0 of `val`; fails exactly when the kernel reports an errno. */
  method SetGPIO(k: Host, fd: int, val: bv64) returns (err: Option<Error>)
    modifies k
    ensures k.trace == old(k.trace) + [SetCall(fd, val)]
    ensures var errno := k.reply(|old(k.trace)|).errno;
      err == if errno != 0 then Some(LineWriteFailed(errno)) else None
  {
    var r := k.Ioctl(fd, LineSetValuesIoctl, SetValues(NewLineValues(val)));
    if r.errno != 0 {
      return Some(LineWriteFailed(r.errno));
    }
    return None;
  }
}
