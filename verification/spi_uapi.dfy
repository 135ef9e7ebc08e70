/**
 * The spidev interface as spi.go declares it: clock-mode bits, the request
 * numbers for configuring and using the device, and the transfer descriptor.
 */
module SpiUapi {
  import opened Uapi

  // Clock phase and polarity bits, and the four modes built from them.
  const Cpha: bv8 := 0x01
  const Cpol: bv8 := 0x02
  const Mode0: bv8 := 0 | 0
  const Mode1: bv8 := 0 | Cpha
  const Mode2: bv8 := Cpol | 0
  const Mode3: bv8 := Cpol | Cpha

  /** Mode k is the number k: bit 0 is the clock phase and bit 1 the clock polarity. */
  lemma ModeBits()
    ensures Mode0 == 0 && Mode1 == 1 && Mode2 == 2 && Mode3 == 3
    ensures Cpha & Cpol == 0
    ensures var modes := [Mode0, Mode1, Mode2, Mode3];
      forall k :: 0 <= k < 4 ==>
        (modes[k] & Cpha != 0 <==> k % 2 == 1) && (modes[k] & Cpol != 0 <==> k >= 2)
  {
  }

  /** The ioctl magic number of spidev. */
  const SpiMagic: nat := 0x6B

  // Request numbers, as written in the source.
  const WrModeIoctl: nat := 0x40016b01
  const WrMaxSpeedHzIoctl: nat := 0x40046b04
  /** The request writeSPI passes: the hand expansion of a one-descriptor message. */
  const TransferIoctl: nat := 0x40006B00 + 1 * 0x200000

  /** `SPI_IOC_WR_MODE` is `_IOW(0x6B, 1, __u8)`. */
  lemma WrModeIoctlEncoding()
    ensures IocFields(IocWrite, SpiMagic, 1, U8().size)
    ensures WrModeIoctl == Iow(SpiMagic, 1, U8().size)
  {
  }

  /** `SPI_IOC_WR_MAX_SPEED_HZ` is `_IOW(0x6B, 4, __u32)`. */
  lemma WrMaxSpeedHzIoctlEncoding()
    ensures IocFields(IocWrite, SpiMagic, 4, U32().size)
    ensures WrMaxSpeedHzIoctl == Iow(SpiMagic, 4, U32().size)
  {
  }

  // Layout of `struct spi_ioc_transfer`.
  function TransferFields(): seq<Layout> {
    [U64(), U64(), U32(), U32(), U16(), U8(), U8(), U8(), U8(), U16()]
  }
  function TransferLayout(): Layout { StructOf(TransferFields()) }

  /** The transfer descriptor is 32 bytes, 8-aligned, with no implicit padding. */
  lemma TransferSize()
    ensures TransferLayout() == Layout(32, 8) && NoImplicitPadding(TransferFields())
  {
    FlatTransferSize(TransferFields());
  }

  lemma FlatTransferSize(f: seq<Layout>)
    requires f == [Layout(8, 8), Layout(8, 8), Layout(4, 4), Layout(4, 4), Layout(2, 2), Layout(1, 1), Layout(1, 1), Layout(1, 1), Layout(1, 1), Layout(2, 2)]
    ensures StructOf(f) == Layout(32, 8) && NoImplicitPadding(f)
  {
    assert FieldsEnd(f, 0, 0) == FieldsEnd(f, 1, 8) == FieldsEnd(f, 2, 16) == FieldsEnd(f, 3, 20);
    assert FieldsEnd(f, 3, 20) == FieldsEnd(f, 4, 24) == FieldsEnd(f, 5, 26) == FieldsEnd(f, 6, 27);
    assert FieldsEnd(f, 6, 27) == FieldsEnd(f, 7, 28) == FieldsEnd(f, 8, 29) == FieldsEnd(f, 9, 30);
    assert FieldsEnd(f, 9, 30) == FieldsEnd(f, 10, 32) == 32;
    assert MaxAlign(f, 10) == 1 && MaxAlign(f, 9) == 2 && MaxAlign(f, 8) == 2 && MaxAlign(f, 7) == 2;
    assert MaxAlign(f, 6) == 2 && MaxAlign(f, 5) == 2 && MaxAlign(f, 4) == 2;
    assert MaxAlign(f, 3) == 4 && MaxAlign(f, 2) == 4 && MaxAlign(f, 1) == 8 && MaxAlign(f, 0) == 8;
    assert PackedSize(f, 10) == 0 && PackedSize(f, 9) == 2 && PackedSize(f, 8) == 3 && PackedSize(f, 7) == 4;
    assert PackedSize(f, 6) == 5 && PackedSize(f, 5) == 6 && PackedSize(f, 4) == 8 && PackedSize(f, 3) == 12;
    assert PackedSize(f, 2) == 16 && PackedSize(f, 1) == 24 && PackedSize(f, 0) == 32;
  }

  /** `SPI_MSGSIZE(n)`: the bytes of n descriptors, or 0 when they do not fit the size field. */
  function MsgSize(n: nat): nat {
    if n * 32 < SizeLimit then n * 32 else 0
  }

  /** `SPI_IOC_MESSAGE(n)`: `_IOW(0x6B, 0, char[SPI_MSGSIZE(n)])`. */
  function IocMessage(n: nat): nat {
    Iow(SpiMagic, 0, MsgSize(n))
  }

  /**
   * The source's hand expansion `0x40006B00 + n * 0x200000` is
   * `SPI_IOC_MESSAGE(n)` for every n whose descriptors fit the size field,
   * and for n = 1 it is the message of one 32-byte descriptor.
   */
  lemma TransferIoctlEncoding(n: nat)
    requires 1 <= n < SizeLimit / 32
    ensures 0x40006B00 + n * 0x200000 == IocMessage(n)
    ensures TransferIoctl == IocMessage(1) == Iow(SpiMagic, 0, TransferLayout().size)
  {
    TransferSize();
    assert MsgSize(n) == n * 32;
  }

  /**
   * `struct spi_ioc_transfer`. The two pointer fields are represented by the
   * bytes they point at: `tx` is sent, `rx` receives.
   */
  datatype Transfer = Transfer(
    tx: seq<bv8>,
    rx: seq<bv8>,
    len: uint32,
    speedHz: uint32,
    delayUsecs: uint16,
    bitsPerWord: uint8,
    csChange: uint8,
    txNbits: uint8,
    rxNbits: uint8,
    pad: uint16)

  /**
   * The descriptor writeSPI builds for `buf`: send `buf`, receive into a
   * scratch buffer of the same length, `len` the Go `uint32(len(buf))`
   * conversion, every other field zero (the driver's defaults).
   */
  function NewTransfer(buf: seq<bv8>): Transfer {
    Transfer(buf, seq(|buf|, _ => 0), (|buf| % 0x1_0000_0000) as uint32, 0, 0, 0, 0, 0, 0, 0)
  }

  /**
   * The descriptor sends exactly `buf` and receives as many bytes; its
   * length field is `len(buf)` cut to 32 bits, which is `len(buf)` itself
   * for any buffer below 4 GiB; the other fields are zero.
   */
  lemma NewTransferFields(buf: seq<bv8>)
    ensures var t := NewTransfer(buf);
      t.tx == buf && |t.rx| == |buf| &&
      t.len as int == |buf| % 0x1_0000_0000 &&
      (|buf| < 0x1_0000_0000 ==> t.len as int == |buf|) &&
      t.speedHz == 0 && t.delayUsecs == 0 && t.bitsPerWord == 0 && t.csChange == 0 &&
      t.txNbits == 0 && t.rxNbits == 0 && t.pad == 0
  {
  }
}
