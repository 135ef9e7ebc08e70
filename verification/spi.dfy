/** Opening, configuring and writing to the spidev device: openSPI and writeSPI of spi.go. */
module Spi {
  import opened Wrappers
  import opened Uapi
  import opened Kernel
  import opened SpiUapi

  /** The ioctl writeSPI issues to send `buf` on the bus behind `f`. */
  function TransferCall(f: int, buf: seq<bv8>): Event {
    IoctlCall(f, TransferIoctl, Message(NewTransfer(buf)))
  }

  /**
   * Opens `dev`, sets the clock mode and then the maximum clock rate. If
   * either setting is refused the device is closed again and no handle is
   * returned; a refused mode means the rate is never attempted.
   */
  method OpenSPI(k: Host, dev: string, mode: bv8, speedHz: uint32) returns (conn: Option<int>, err: Option<Error>)
    modifies k
    ensures var n := |old(k.trace)|;
      var dv := k.reply(n);
      if dv.errno != 0 then
        k.trace == old(k.trace) + [OpenCall(dev)] && conn == None && err == Some(OpenFailed(dev, dv.errno))
      else
        var f := dv.fd;
        var setMode := IoctlCall(f, WrModeIoctl, WrMode(mode));
        var setSpeed := IoctlCall(f, WrMaxSpeedHzIoctl, WrMaxSpeedHz(speedHz));
        if k.reply(n + 1).errno != 0 then
          k.trace == old(k.trace) + [OpenCall(dev), setMode, CloseCall(f)] &&
          conn == None && err == Some(ModeFailed(mode, k.reply(n + 1).errno))
        else if k.reply(n + 2).errno != 0 then
          k.trace == old(k.trace) + [OpenCall(dev), setMode, setSpeed, CloseCall(f)] &&
          conn == None && err == Some(SpeedFailed(speedHz, k.reply(n + 2).errno))
        else
          k.trace == old(k.trace) + [OpenCall(dev), setMode, setSpeed] && conn == Some(f) && err == None
  {
    var f, errno := k.Open(dev);
    if errno != 0 {
      return None, Some(OpenFailed(dev, errno));
    }
    var r := k.Ioctl(f, WrModeIoctl, WrMode(mode));
    if r.errno != 0 {
      k.Close(f);
      return None, Some(ModeFailed(mode, r.errno));
    }
    r := k.Ioctl(f, WrMaxSpeedHzIoctl, WrMaxSpeedHz(speedHz));
    if r.errno != 0 {
      k.Close(f);
      return None, Some(SpeedFailed(speedHz, r.errno));
    }
    return Some(f), None;
  }

  /**
   * Sends `buf` in one full-duplex transfer whose received bytes are
   * dropped. The source takes the address of `buf[0]`, so an empty buffer
   * is not allowed.
   */
  method WriteSPI(k: Host, f: int, buf: seq<bv8>) returns (n: int, err: Option<Error>)
    requires |buf| > 0
    modifies k
    ensures k.trace == old(k.trace) + [TransferCall(f, buf)]
    ensures var errno := k.reply(|old(k.trace)|).errno;
      if errno != 0 then n == 0 && err == Some(TransferFailed(errno)) else n == |buf| && err == None
  {
    var r := k.Ioctl(f, TransferIoctl, Message(NewTransfer(buf)));
    if r.errno != 0 {
      return 0, Some(TransferFailed(r.errno));
    }
    return |buf|, None;
  }
}
