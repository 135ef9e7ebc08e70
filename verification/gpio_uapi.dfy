/**
 * The GPIO character-device v2 interface as gpio.go declares it: line flag
 * bits, the two request numbers, the request records and their C layouts,
 * and the records that openGPIO and setGPIO fill in.
 */
module GpioUapi {
  import opened Uapi

  const MaxNameSize: nat := 32
  const LineNumAttrsMax: nat := 10
  const LinesMax: nat := 64

  // Line configuration flags.
  const LineFlagInput: bv64 := 1 << 2
  const LineFlagOutput: bv64 := 1 << 3
  const LineFlagBiasPullUp: bv64 := 1 << 8
  const LineFlagBiasPullDown: bv64 := 1 << 9
  const LineFlagBiasDisabled: bv64 := 1 << 10

  /** Each flag is one bit of its own, and the output/pull-down pair used for both lines is 0x208. */
  lemma FlagBits()
    ensures LineFlagInput == 0x4 && LineFlagOutput == 0x8
    ensures LineFlagBiasPullUp == 0x100 && LineFlagBiasPullDown == 0x200 && LineFlagBiasDisabled == 0x400
    ensures var flags := [LineFlagInput, LineFlagOutput, LineFlagBiasPullUp, LineFlagBiasPullDown, LineFlagBiasDisabled];
      forall i, j :: 0 <= i < j < |flags| ==> flags[i] & flags[j] == 0
    ensures LineFlagOutput | LineFlagBiasPullDown == 0x208
  {
  }

  // Request numbers, as written in the source.
  const GetLineIoctl: nat := 0xc250b407
  const LineSetValuesIoctl: nat := 0xc010b40f

  /** The ioctl magic number of the GPIO character device. */
  const GpioMagic: nat := 0xB4

  // C layouts of the request structures, field by field.
  function LineAttributeFields(): seq<Layout> { [U32(), U32(), U64()] }
  function LineAttributeLayout(): Layout { StructOf(LineAttributeFields()) }
  function LineConfigAttributeFields(): seq<Layout> { [LineAttributeLayout(), U64()] }
  function LineConfigAttributeLayout(): Layout { StructOf(LineConfigAttributeFields()) }
  function LineConfigFields(): seq<Layout> {
    [U64(), U32(), ArrayOf(U32(), 5), ArrayOf(LineConfigAttributeLayout(), LineNumAttrsMax)]
  }
  function LineConfigLayout(): Layout { StructOf(LineConfigFields()) }
  function LineRequestFields(): seq<Layout> {
    [ArrayOf(U32(), LinesMax), ArrayOf(U8(), MaxNameSize), LineConfigLayout(), U32(), U32(), ArrayOf(U32(), 5), I32()]
  }
  function LineRequestLayout(): Layout { StructOf(LineRequestFields()) }
  function LineValuesFields(): seq<Layout> { [U64(), U64()] }
  function LineValuesLayout(): Layout { StructOf(LineValuesFields()) }

  /** The attribute record is 16 bytes, 8-aligned, with no implicit padding. */
  lemma LineAttributeSize()
    ensures LineAttributeLayout() == Layout(16, 8) && NoImplicitPadding(LineAttributeFields())
  {
    var f := LineAttributeFields();
    assert f == [Layout(4, 4), Layout(4, 4), Layout(8, 8)];
    assert FieldsEnd(f, 0, 0) == FieldsEnd(f, 1, 4) == FieldsEnd(f, 2, 8) == FieldsEnd(f, 3, 16);
    assert FieldsEnd(f, 3, 16) == 16;
    assert MaxAlign(f, 3) == 1 && MaxAlign(f, 2) == 8 && MaxAlign(f, 1) == 8 && MaxAlign(f, 0) == 8;
    assert PackedSize(f, 3) == 0 && PackedSize(f, 2) == 8 && PackedSize(f, 1) == 12 && PackedSize(f, 0) == 16;
  }

  /** The configuration attribute is 24 bytes, 8-aligned, with no implicit padding. */
  lemma LineConfigAttributeSize()
    ensures LineConfigAttributeLayout() == Layout(24, 8) && NoImplicitPadding(LineConfigAttributeFields())
  {
    LineAttributeSize();
    var f := LineConfigAttributeFields();
    assert f == [Layout(16, 8), Layout(8, 8)];
    assert FieldsEnd(f, 0, 0) == FieldsEnd(f, 1, 16) == FieldsEnd(f, 2, 24);
    assert FieldsEnd(f, 2, 24) == 24;
    assert MaxAlign(f, 2) == 1 && MaxAlign(f, 1) == 8 && MaxAlign(f, 0) == 8;
    assert PackedSize(f, 2) == 0 && PackedSize(f, 1) == 8 && PackedSize(f, 0) == 24;
  }

  /** The line configuration is 272 bytes, 8-aligned, with no implicit padding. */
  lemma LineConfigSize()
    ensures LineConfigLayout() == Layout(272, 8) && NoImplicitPadding(LineConfigFields())
  {
    LineConfigAttributeSize();
    FlatConfigSize(LineConfigFields());
  }

  lemma FlatConfigSize(f: seq<Layout>)
    requires f == [Layout(8, 8), Layout(4, 4), Layout(20, 4), Layout(240, 8)]
    ensures StructOf(f) == Layout(272, 8) && NoImplicitPadding(f)
  {
    assert FieldsEnd(f, 0, 0) == FieldsEnd(f, 1, 8) == FieldsEnd(f, 2, 12) == FieldsEnd(f, 3, 32);
    assert FieldsEnd(f, 3, 32) == FieldsEnd(f, 4, 272);
    assert FieldsEnd(f, 4, 272) == 272;
    assert MaxAlign(f, 4) == 1 && MaxAlign(f, 3) == 8 && MaxAlign(f, 2) == 8 && MaxAlign(f, 1) == 8 && MaxAlign(f, 0) == 8;
    assert PackedSize(f, 4) == 0 && PackedSize(f, 3) == 240 && PackedSize(f, 2) == 260 && PackedSize(f, 1) == 264 && PackedSize(f, 0) == 272;
  }

  /** With the nested sizes known, the request's fields are these plain layouts. */
  lemma LineRequestFieldsFlat()
    ensures LineRequestFields() == [Layout(256, 4), Layout(32, 1), Layout(272, 8), Layout(4, 4), Layout(4, 4), Layout(20, 4), Layout(4, 4)]
  {
    LineConfigSize();
  }

  /** The line request is 592 bytes, 8-aligned, with no implicit padding. */
  lemma LineRequestSize()
    ensures LineRequestLayout() == Layout(592, 8) && NoImplicitPadding(LineRequestFields())
  {
    LineRequestFieldsFlat();
    FlatRequestSize(LineRequestFields());
  }

  lemma FlatRequestSize(f: seq<Layout>)
    requires f == [Layout(256, 4), Layout(32, 1), Layout(272, 8), Layout(4, 4), Layout(4, 4), Layout(20, 4), Layout(4, 4)]
    ensures StructOf(f) == Layout(592, 8) && NoImplicitPadding(f)
  {
    assert FieldsEnd(f, 0, 0) == FieldsEnd(f, 1, 256) == FieldsEnd(f, 2, 288) == FieldsEnd(f, 3, 560);
    assert FieldsEnd(f, 3, 560) == FieldsEnd(f, 4, 564) == FieldsEnd(f, 5, 568) == FieldsEnd(f, 6, 588);
    assert FieldsEnd(f, 6, 588) == FieldsEnd(f, 7, 592);
    assert FieldsEnd(f, 7, 592) == 592;
    assert MaxAlign(f, 7) == 1 && MaxAlign(f, 6) == 4 && MaxAlign(f, 5) == 4 && MaxAlign(f, 4) == 4 && MaxAlign(f, 3) == 4 && MaxAlign(f, 2) == 8 && MaxAlign(f, 1) == 8 && MaxAlign(f, 0) == 8;
    assert PackedSize(f, 7) == 0 && PackedSize(f, 6) == 4 && PackedSize(f, 5) == 24 && PackedSize(f, 4) == 28 && PackedSize(f, 3) == 32 && PackedSize(f, 2) == 304 && PackedSize(f, 1) == 336 && PackedSize(f, 0) == 592;
  }

  /** The line-values record is 16 bytes, 8-aligned, with no implicit padding. */
  lemma LineValuesSize()
    ensures LineValuesLayout() == Layout(16, 8) && NoImplicitPadding(LineValuesFields())
  {
    var f := LineValuesFields();
    assert f == [Layout(8, 8), Layout(8, 8)];
    assert FieldsEnd(f, 0, 0) == FieldsEnd(f, 1, 8) == FieldsEnd(f, 2, 16);
    assert FieldsEnd(f, 2, 16) == 16;
    assert MaxAlign(f, 2) == 1 && MaxAlign(f, 1) == 8 && MaxAlign(f, 0) == 8;
    assert PackedSize(f, 2) == 0 && PackedSize(f, 1) == 8 && PackedSize(f, 0) == 16;
  }

  /** `GPIO_V2_GET_LINE_IOCTL` is `_IOWR(0xB4, 0x07, struct gpio_v2_line_request)`. */
  lemma GetLineIoctlEncoding()
    ensures IocFields(IocRead + IocWrite, GpioMagic, 0x07, LineRequestLayout().size)
    ensures GetLineIoctl == Iowr(GpioMagic, 0x07, LineRequestLayout().size)
  {
    LineRequestSize();
  }

  /** `GPIO_V2_LINE_SET_VALUES_IOCTL` is `_IOWR(0xB4, 0x0F, struct gpio_v2_line_values)`. */
  lemma LineSetValuesIoctlEncoding()
    ensures IocFields(IocRead + IocWrite, GpioMagic, 0x0F, LineValuesLayout().size)
    ensures LineSetValuesIoctl == Iowr(GpioMagic, 0x0F, LineValuesLayout().size)
  {
    LineValuesSize();
  }

  // ----- records -----------------------------------------------------------

  datatype LineAttribute = LineAttribute(id: bv32, padding: bv32, values: bv64)
  datatype LineConfigAttribute = LineConfigAttribute(attr: LineAttribute, mask: bv64)
  datatype LineConfig = LineConfig(flags: bv64, numAttrs: bv32, padding: seq<bv32>, attrs: seq<LineConfigAttribute>)
  datatype LineRequest = LineRequest(
    offsets: seq<bv32>,
    consumer: seq<bv8>,
    config: LineConfig,
    numLines: bv32,
    eventBufferSize: bv32,
    padding: seq<bv32>,
    fd: bv32)
  datatype LineValues = LineValues(bits: bv64, mask: bv64)

  const ZeroAttribute := LineConfigAttribute(LineAttribute(0, 0, 0), 0)

  /** The fixed-size arrays of a request have the lengths the C structure gives them. */
  predicate WellFormed(r: LineRequest) {
    |r.offsets| == LinesMax && |r.consumer| == MaxNameSize && |r.padding| == 5 &&
    |r.config.padding| == 5 && |r.config.attrs| == LineNumAttrsMax
  }

  /** The label the kernel reads from a NUL-terminated name buffer. */
  function CString(name: seq<bv8>): (s: seq<bv8>)
    ensures |s| <= |name| && s == name[..|s|]
    ensures forall i :: 0 <= i < |s| ==> s[i] != 0
    ensures |s| < |name| ==> name[|s|] == 0
  {
    if name == [] || name[0] == 0 then [] else [name[0]] + CString(name[1..])
  }

  /** The bytes of "inky". */
  const Inky: seq<bv8> := [0x69, 0x6e, 0x6b, 0x79]

  /**
   * The request openGPIO hands to the kernel: one line, the given offset,
   * consumer "inky", the given flags, no attributes; every other field zero.
   */
  function NewLineRequest(line: bv32, flags: bv64): (r: LineRequest)
    ensures WellFormed(r)
    ensures r.numLines == 1 && r.offsets[..r.numLines] == [line]
    ensures forall i :: 1 <= i < LinesMax ==> r.offsets[i] == 0
    ensures CString(r.consumer) == Inky
    ensures forall i :: |Inky| <= i < MaxNameSize ==> r.consumer[i] == 0
    ensures r.config.flags == flags && r.config.numAttrs == 0
    ensures forall i :: 0 <= i < LineNumAttrsMax ==> r.config.attrs[i] == ZeroAttribute
    ensures forall i :: 0 <= i < 5 ==> r.config.padding[i] == 0 && r.padding[i] == 0
    ensures r.eventBufferSize == 0 && r.fd == 0
  {
    var consumer := Inky + seq(MaxNameSize - |Inky|, _ => 0 as bv8);
    assert CString(consumer) == Inky by {
      var rest := consumer[|Inky|..];
      assert consumer == Inky + rest && rest[0] == 0;
      assert consumer[1..] == Inky[1..] + rest;
      assert consumer[2..] == Inky[2..] + rest;
      assert consumer[3..] == Inky[3..] + rest;
      assert consumer[4..] == rest;
    }
    LineRequest(
      seq(LinesMax, i => if i == 0 then line else 0),
      consumer,
      LineConfig(flags, 0, seq(5, _ => 0), seq(LineNumAttrsMax, _ => ZeroAttribute)),
      1, 0, seq(5, _ => 0), 0)
  }

  /** The values setGPIO sends for `val`. */
  function NewLineValues(val: bv64): LineValues {
    LineValues(1 & val, 1)
  }

  /** Only bit 0 of `val` is sent, and only the request's first line is selected. */
  lemma NewLineValuesMask(val: bv64)
    ensures var v := NewLineValues(val);
      v.mask == 1 && v.bits <= 1 && (v.bits == 1 <==> val & 1 == 1)
  {
  }
}
