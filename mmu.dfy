/**
 * The x86 address-split and segment-descriptor helpers of include/mmu.h.
 * A 32-bit linear address is split as in section 4.3 ("32-Bit Paging") of the
 * Intel SDM, Volume 3A: bits 31..22 index the page directory, bits 21..12 the
 * page table, bits 11..0 are the offset in the 4 KiB page.  Segment descriptors
 * follow section 3.4.5 ("Segment Descriptors") of the same volume.
 */
module Mmu {

  const PTX_SHIFT: bv32 := 12
  const PDX_SHIFT: bv32 := 22

  /** PAGE_NUMBER: the linear address shifted right by 12. */
  function PageNumber(a: bv32): (r: bv32)
    ensures r == PageDirectoryIndex(a) * 1024 + PageTableIndex(a)
  {
    a >> PTX_SHIFT
  }

  /** PAGE_DIRECTORY_INDEX: bits 31..22. */
  function PageDirectoryIndex(a: bv32): (r: bv32)
    ensures r < 1024
  {
    (a >> PDX_SHIFT) & 0x3FF
  }

  /** PAGE_TABLE_INDEX: bits 21..12. */
  function PageTableIndex(a: bv32): (r: bv32)
    ensures r < 1024
  {
    (a >> PTX_SHIFT) & 0x3FF
  }

  /** PAGE_OFFSET: bits 11..0. */
  function PageOffset(a: bv32): (r: bv32)
    ensures r < 4096
  {
    a & 0xFFF
  }

  /**
   * The inverse that PAGE_ADDRESS(d, t, o) is meant to compute.  The macro ORs in
   * an undeclared `O` instead of its parameter `o`; this is the intended version.
   */
  function PageAddress(d: bv32, t: bv32, o: bv32): (a: bv32)
    requires d < 1024 && t < 1024 && o < 4096
    ensures PageDirectoryIndex(a) == d && PageTableIndex(a) == t && PageOffset(a) == o
  {
    (d << PDX_SHIFT) | (t << PTX_SHIFT) | o
  }

  /** Every linear address is reassembled from its three fields, by OR and as a sum. */
  lemma SplitRecombine(a: bv32)
    ensures PageAddress(PageDirectoryIndex(a), PageTableIndex(a), PageOffset(a)) == a
    ensures PageDirectoryIndex(a) * 0x40_0000 + PageTableIndex(a) * 0x1000 + PageOffset(a) == a
  {
  }

  /** PAGE_DIRECTORY_ENTRY_ADDRESS: the entry with its 12 flag bits cleared. */
  function PageDirectoryEntryAddress(e: bv32): (r: bv32)
    ensures r & 0xFFF == 0 && r <= e && e - r < 4096
  {
    e & !0xFFF
  }

  /**
   * The assembler form of SEGMENT(type, base, limit): the two `.word`s
   * (little-endian) and four `.byte`s it emits, in memory order.
   */
  function AsmSegment(segType: bv32, base: bv32, limit: bv32): (d: seq<bv8>)
    requires segType < 16
    ensures |d| == 8
    ensures d[5] == 0x90 | segType as bv8 && d[6] & 0xF0 == 0xC0
    ensures AsmBase(d) == base
    ensures AsmLimit(d) == limit >> 12
  {
    var w0 := ((limit >> 12) & 0xFFFF);
    var w1 := base & 0xFFFF;
    [ (w0 & 0xFF) as bv8, (w0 >> 8) as bv8,
      (w1 & 0xFF) as bv8, (w1 >> 8) as bv8,
      ((base >> 16) & 0xFF) as bv8,
      (0x90 | segType) as bv8,
      (0xC0 | ((limit >> 28) & 0xF)) as bv8,
      ((base >> 24) & 0xFF) as bv8 ]
  }

  /** The base address scattered over bytes 2, 3, 4 and 7 of a descriptor. */
  function AsmBase(d: seq<bv8>): bv32
    requires |d| == 8
  {
    (d[2] as bv32) | ((d[3] as bv32) << 8) | ((d[4] as bv32) << 16) | ((d[7] as bv32) << 24)
  }

  /** The 20-bit limit field: bytes 0 and 1 and the low nibble of byte 6. */
  function AsmLimit(d: seq<bv8>): bv32
    requires |d| == 8
  {
    (d[0] as bv32) | ((d[1] as bv32) << 8) | (((d[6] & 0xF) as bv32) << 16)
  }

  /** The C `struct segment_descriptor`, one field per bit-field. */
  datatype SegmentDescriptor = SegmentDescriptor(
    limit15_0: bv32, base15_0: bv32, base23_16: bv32, segType: bv32, s: bv32, dpl: bv32,
    p: bv32, limit19_16: bv32, avail: bv32, reserve: bv32, db: bv32, g: bv32, base31_24: bv32)

  /** Each field fits the width of its bit-field. */
  predicate FieldsFit(sd: SegmentDescriptor)
  {
    sd.limit15_0 < 0x10000 && sd.base15_0 < 0x10000 && sd.base23_16 < 0x100 &&
    sd.segType < 16 && sd.s < 2 && sd.dpl < 4 && sd.p < 2 && sd.limit19_16 < 16 &&
    sd.avail < 2 && sd.reserve < 2 && sd.db < 2 && sd.g < 2 && sd.base31_24 < 0x100
  }

  /** The base reassembled from its three bit-fields. */
  function DescriptorBase(sd: SegmentDescriptor): bv32
  {
    sd.base15_0 | (sd.base23_16 << 16) | (sd.base31_24 << 24)
  }

  /**
   * The C SEGMENT(type, base, limit, dpl) initializer.  Storing into a bit-field
   * keeps only the low bits, which the masks below make explicit.
   */
  function Segment(segType: bv32, base: bv32, limit: bv32, dpl: bv32): (sd: SegmentDescriptor)
    ensures FieldsFit(sd)
    ensures sd.s == 1 && sd.p == 1 && sd.avail == 0 && sd.reserve == 0 && sd.db == 1 && sd.g == 1
    ensures sd.segType == segType & 0xF && sd.dpl == dpl & 0x3
    ensures DescriptorBase(sd) == base
    ensures (sd.limit19_16 << 16) | sd.limit15_0 == limit >> 12
  {
    SegmentDescriptor(
      (limit >> 12) & 0xFFFF, base & 0xFFFF, (base >> 16) & 0xFF, segType & 0xF, 1, dpl & 0x3,
      1, (limit >> 28) & 0xF, 0, 0, 1, 1, (base >> 24) & 0xFF)
  }

  /** The C SEGMENT_16 initializer: raw low limit bits and byte granularity. */
  function Segment16(segType: bv32, base: bv32, limit: bv32, dpl: bv32): (sd: SegmentDescriptor)
    ensures FieldsFit(sd)
    ensures sd.s == 1 && sd.p == 1 && sd.avail == 0 && sd.reserve == 0 && sd.db == 1 && sd.g == 0
    ensures sd.segType == segType & 0xF && sd.dpl == dpl & 0x3
    ensures DescriptorBase(sd) == base
    ensures sd.limit15_0 == limit & 0xFFFF && sd.limit19_16 == (limit >> 16) & 0xF
  {
    SegmentDescriptor(
      limit & 0xFFFF, base & 0xFFFF, (base >> 16) & 0xFF, segType & 0xF, 1, dpl & 0x3,
      1, (limit >> 16) & 0xF, 0, 0, 1, 0, (base >> 24) & 0xFF)
  }

  /** The C bit-field layout written out as the eight bytes of the descriptor. */
  function Pack(sd: SegmentDescriptor): (d: seq<bv8>)
    requires FieldsFit(sd)
    ensures |d| == 8
  {
    [ (sd.limit15_0 & 0xFF) as bv8, (sd.limit15_0 >> 8) as bv8,
      (sd.base15_0 & 0xFF) as bv8, (sd.base15_0 >> 8) as bv8,
      sd.base23_16 as bv8,
      (sd.segType | (sd.s << 4) | (sd.dpl << 5) | (sd.p << 7)) as bv8,
      (sd.limit19_16 | (sd.avail << 4) | (sd.reserve << 5) | (sd.db << 6) | (sd.g << 7)) as bv8,
      sd.base31_24 as bv8 ]
  }

  /** The C initializer with privilege level 0 lays out the same bytes the assembler macro emits. */
  lemma SegmentMatchesAsm(segType: bv32, base: bv32, limit: bv32)
    requires segType < 16
    ensures Pack(Segment(segType, base, limit, 0)) == AsmSegment(segType, base, limit)
  {
  }
}
