/**
 * The two pieces of the Linux user-space ABI that the GPIO and SPI request
 * numbers are built from: the `_IOC` request encoding of the generic
 * `asm-generic/ioctl.h` header, and the C layout rules that give the byte
 * size of the structure a request carries.
 */
module Uapi {

  // ----- fixed-width unsigned integers -----------------------------------

  newtype uint8 = x: int | 0 <= x < 0x100
  newtype uint16 = x: int | 0 <= x < 0x1_0000
  newtype uint32 = x: int | 0 <= x < 0x1_0000_0000

  // ----- ioctl request numbers -------------------------------------------

  /** Direction bits of a request: the kernel reads, writes, or both. */
  const IocNone: nat := 0
  const IocWrite: nat := 1
  const IocRead: nat := 2

  /** Field widths: 8 bits of number, 8 of type, 14 of size, 2 of direction. */
  const NrLimit: nat := 0x100
  const TypeLimit: nat := 0x100
  const SizeLimit: nat := 0x4000
  const DirLimit: nat := 4

  predicate IocFields(dir: nat, typ: nat, nr: nat, size: nat) {
    dir < DirLimit && typ < TypeLimit && nr < NrLimit && size < SizeLimit
  }

  /** `_IOC(dir, type, nr, size)`: `dir << 30 | size << 16 | type << 8 | nr`. */
  function Ioc(dir: nat, typ: nat, nr: nat, size: nat): (req: nat)
    requires IocFields(dir, typ, nr, size)
    ensures req < 0x1_0000_0000
  {
    dir * 0x4000_0000 + size * 0x1_0000 + typ * 0x100 + nr
  }

  /** `_IOW(type, nr, size)`: user space writes a `size`-byte argument. */
  function Iow(typ: nat, nr: nat, size: nat): nat
    requires IocFields(IocWrite, typ, nr, size)
  {
    Ioc(IocWrite, typ, nr, size)
  }

  /** `_IOWR(type, nr, size)`: the argument travels both ways. */
  function Iowr(typ: nat, nr: nat, size: nat): nat
    requires IocFields(IocRead + IocWrite, typ, nr, size)
  {
    Ioc(IocRead + IocWrite, typ, nr, size)
  }

  /** The kernel's `_IOC_DIR`, `_IOC_TYPE`, `_IOC_NR` and `_IOC_SIZE`. */
  function IocDir(req: nat): nat { req / 0x4000_0000 % DirLimit }
  function IocType(req: nat): nat { req / 0x100 % TypeLimit }
  function IocNr(req: nat): nat { req % NrLimit }
  function IocSize(req: nat): nat { req / 0x1_0000 % SizeLimit }

  /** Decoding a request number recovers every field it was built from. */
  lemma IocRoundTrip(dir: nat, typ: nat, nr: nat, size: nat)
    requires IocFields(dir, typ, nr, size)
    ensures var req := Ioc(dir, typ, nr, size);
      IocDir(req) == dir && IocType(req) == typ && IocNr(req) == nr && IocSize(req) == size
  {
    var req := Ioc(dir, typ, nr, size);
    var low := typ * 0x100 + nr;
    assert low < 0x1_0000;
    assert req == (dir * 0x4000 + size) * 0x1_0000 + low;
    assert req / 0x1_0000 == dir * 0x4000 + size;
    assert req / 0x100 == (dir * 0x4000 + size) * 0x100 + typ;
    assert req / 0x4000_0000 == dir;
  }

  // ----- C structure layout ----------------------------------------------

  /** Byte size and alignment of a C type. */
  datatype Layout = Layout(size: nat, align: nat)

  // The fixed-width integer types of the uAPI headers, naturally aligned.
  function U8(): Layout { Layout(1, 1) }
  function U16(): Layout { Layout(2, 2) }
  function U32(): Layout { Layout(4, 4) }
  function I32(): Layout { Layout(4, 4) }
  function U64(): Layout { Layout(8, 8) }

  /** `T[n]`: n elements back to back, aligned like one element. */
  function ArrayOf(elem: Layout, n: nat): Layout {
    Layout(n * elem.size, elem.align)
  }

  /** The smallest multiple of `align` that is at least `off`. */
  function RoundUp(off: nat, align: nat): nat {
    if align == 0 || off % align == 0 then off else off + (align - off % align)
  }

  /**
   * Where the last field ends when `fields[i..]` are laid out in order, the
   * first of them at the first suitably aligned offset at or after `off`.
   */
  function FieldsEnd(fields: seq<Layout>, i: nat, off: nat): nat
    decreases |fields| - i
  {
    if i >= |fields| then off
    else FieldsEnd(fields, i + 1, RoundUp(off, fields[i].align) + fields[i].size)
  }

  /** The strictest alignment among `fields[i..]` (1 when there are none). */
  function MaxAlign(fields: seq<Layout>, i: nat): nat
    decreases |fields| - i
  {
    if i >= |fields| then 1
    else var rest := MaxAlign(fields, i + 1);
      if fields[i].align > rest then fields[i].align else rest
  }

  /** A `struct` of `fields` in declaration order, each at its natural alignment. */
  function StructOf(fields: seq<Layout>): Layout {
    var align := MaxAlign(fields, 0);
    Layout(RoundUp(FieldsEnd(fields, 0, 0), align), align)
  }

  /** The sum of the sizes of `fields[i..]`: what the struct would take with no padding at all. */
  function PackedSize(fields: seq<Layout>, i: nat): nat
    decreases |fields| - i
  {
    if i >= |fields| then 0 else fields[i].size + PackedSize(fields, i + 1)
  }

  /** The compiler inserts no padding bytes between or after the fields. */
  predicate NoImplicitPadding(fields: seq<Layout>) {
    StructOf(fields).size == PackedSize(fields, 0)
  }
}
