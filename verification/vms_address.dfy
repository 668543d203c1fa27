/** Pointers of the virtual memory system: table indices, entry addresses, page numbers. */
module VmsAddress {
  import opened Binaries
  import opened VmsPte

  /** vms_page_table_index; a level of the walk is 0, 1 or 2. */
  function PageTableIndex(va: bv64, level: nat): bv64
    requires level < 3
  {
    if level == 0 then ((0x1FF << 12) & va) >> 12
    else if level == 1 then ((0x1FF << 21) & va) >> 21
    else ((0x1FF << 30) & va) >> 30
  }

  /** vms_page_table_pte_entry_from_index: entries are 8 bytes wide. */
  function EntryAddress(table: bv64, index: bv64): bv64 { table + (index << 3) }

  /** get_base_page */
  function BasePage(entry: bv64): bv64 { entry & !0xFFF }

  function PpnToPage(ppn: bv64): bv64 { ppn << 12 }

  predicate PageAligned(p: bv64) { p & 0xFFF == 0 }

  /** The two assertions of vms_page_to_ppn. */
  predicate PageToPpnAsserts(p: bv64) { PageAligned(p) && p & 0xF000_0000_0000_0000 == 0 }

  function PageToPpn(p: bv64): bv64 { p >> 12 }

  /** translate_address */
  function TranslateAddress(va: bv64, e: bv64): bv64 { PpnToPage(PteGetPpn(e)) | (va & 0xFFF) }

  // ---- Indices and offset -------------------------------------------------------------

  function Offset(va: bv64): bv64 { va & 0xFFF }

  /** The part of an address that the walk looks at. */
  function Walked(va: bv64): bv64 { va & 0x7F_FFFF_FFFF }

  /** The address with given indices and offset. */
  function Compose(i2: bv64, i1: bv64, i0: bv64, offset: bv64): bv64 {
    (i2 << 30) | (i1 << 21) | (i0 << 12) | offset
  }

  /** The indices and the offset determine the low 39 bits of an address, and nothing else. */
  lemma IndicesDetermineAddress(va: bv64)
    ensures Compose(PageTableIndex(va, 2), PageTableIndex(va, 1), PageTableIndex(va, 0), Offset(va)) == Walked(va)
    ensures PageTableIndex(va, 2) < 512 && PageTableIndex(va, 1) < 512 && PageTableIndex(va, 0) < 512
  {
  }

  /** Every choice of indices and offset is reached, whatever the upper 25 bits hold. */
  lemma AddressDeterminesIndices(i2: bv64, i1: bv64, i0: bv64, offset: bv64, upper: bv64)
    requires i2 < 512 && i1 < 512 && i0 < 512 && offset < 4096
    ensures var va := Compose(i2, i1, i0, offset) | (upper << 39);
      PageTableIndex(va, 2) == i2 && PageTableIndex(va, 1) == i1 && PageTableIndex(va, 0) == i0 && va & 0xFFF == offset
  {
  }

  // ---- Entry pointers -----------------------------------------------------------------

  /** From an entry pointer both the table and the index can be recovered. */
  lemma BasePageOfEntry(table: bv64, index: bv64)
    requires PageAligned(table) && index < 512
    ensures BasePage(EntryAddress(table, index)) == table
    ensures (EntryAddress(table, index) & 0xFFF) >> 3 == index
  {
  }

  // ---- Page numbers -------------------------------------------------------------------

  /** Storing a page in an entry and following the entry leads back to the page exactly when
      the page is aligned and lies below 2^56. */
  lemma PageRoundTrip(e: bv64, p: bv64)
    ensures PpnToPage(PteGetPpn(PteWithPpn(e, PageToPpn(p)))) == p <==> PageAligned(p) && p < 0x100_0000_0000_0000
  {
  }

  /** The assertions of vms_page_to_ppn let pages through that an entry cannot hold. */
  lemma AssertsAreTooWeak(e: bv64)
    ensures PageToPpnAsserts(0x100_0000_0000_0000)
    ensures PpnToPage(PteGetPpn(PteWithPpn(e, PageToPpn(0x100_0000_0000_0000)))) == 0
  {
  }

  /** vms_get_page_index undoes vms_get_page_pointer. */
  lemma PageIndexOfPointer(base: bv64, i: bv64)
    requires i < 256
    ensures ((base + i * 4096) - base) / 4096 == i
  {
  }

  /** vms_get_page_pointer undoes vms_get_page_index for every page of the mapped area. */
  lemma PagePointerOfIndex(base: bv64, distance: bv64)
    requires PageAligned(distance) && distance < 0x10_0000
    ensures var pointer := base + distance;
      (pointer - base) / 4096 < 256 && base + (pointer - base) / 4096 * 4096 == pointer
  {
  }

  /** vms_get_page_pointer */
  function PagePointer(base: bv64, i: bv64): bv64 { base + i * 4096 }

  function NextPointer(pointer: bv64): bv64 { pointer + 4096 }

  predicate Inner(pointer: bv64) { pointer < 0xFF_FFFF_FFFF_F000 }

  lemma NextDistance(base: bv64, i: bv64, x: bv64, y: bv64)
    requires x == base + i * 4096 && y == base + (i + 1) * 4096
    ensures y == x + 4096
  {
  }

  lemma NextPagePointer(base: bv64, i: bv64)
    ensures PagePointer(base, i + 1) == NextPointer(PagePointer(base, i))
  {
    NextDistance(base, i, PagePointer(base, i), PagePointer(base, i + 1));
  }

  lemma SuccessorIs(i: bv64, j: bv64)
    requires j == Successor(i)
    ensures j == i + 1
  {
  }

  lemma PointerOfSuccessor(base: bv64, i: bv64)
    ensures PagePointer(base, Successor(i)) == NextPointer(PagePointer(base, i))
  {
    hide PagePointer, NextPointer, Successor;
    SuccessorIs(i, Successor(i));
    NextPagePointer(base, i);
  }

  lemma InnerPointer(base: bv64, i: bv64)
    requires base <= 0xFF_FFFF_FFF0_0000 && i < 255
    ensures Inner(PagePointer(base, i))
  {
  }

  lemma PpnOfNextPointer(pointer: bv64)
    requires Inner(pointer)
    ensures PageToPpn(NextPointer(pointer)) == Successor(PageToPpn(pointer)) && PageToPpn(pointer) < 0xFFF_FFFF_FFFF
  {
  }

  lemma FirstPointer(base: bv64)
    ensures PagePointer(base, Binary(0)) == base
  {
    assert Binary(0) == 0;
  }

  lemma LastBinary(n: nat)
    requires n < 255
    ensures Binary(n) < 255
  {
    SmallBinary(n);
    if Binary(n) >= 255 { OnlyLast(Binary(n)); }
  }

  lemma OnlyLast(x: bv64)
    requires 255 <= x < 256
    ensures Number(x) == 255
  {
    assert x == 255;
  }

  /** The mapped area ends below 2^56. */
  predicate AreaFits(base: bv64) { base <= 0xFF_FFFF_FFF0_0000 }

  lemma NextPageNumber(base: bv64, i: bv64)
    requires AreaFits(base) && i < 255
    ensures Number(PageToPpn(PagePointer(base, Successor(i)))) == Number(PageToPpn(PagePointer(base, i))) + 1
  {
    hide Number, PageToPpn, PagePointer, NextPointer, Successor, Inner;
    var pointer := PagePointer(base, i);
    PointerOfSuccessor(base, i);
    InnerPointer(base, i);
    PpnOfNextPointer(pointer);
    NumberSuccessor(PageToPpn(pointer));
  }

  /** Frame p of the machine is the p-th page of the mapped area: the page number of its
      pointer is the page number of the area plus p. */
  lemma {:induction false} PageNumberOfFrame(base: bv64, p: nat)
    requires AreaFits(base) && p < 256
    ensures Number(PageToPpn(PagePointer(base, Binary(p)))) == Number(PageToPpn(base)) + p
    decreases p
  {
    hide Number, Binary, PageToPpn, PagePointer, Successor, AreaFits;
    if p == 0 {
      FirstPointer(base);
    } else {
      PageNumberOfFrame(base, p - 1);
      BinarySuccessor(p - 1);
      LastBinary(p - 1);
      NextPageNumber(base, Binary(p - 1));
    }
  }

  /** Translation keeps the offset and takes the page from the entry. */
  lemma TranslationParts(va: bv64, e: bv64)
    ensures TranslateAddress(va, e) & 0xFFF == va & 0xFFF
    ensures BasePage(TranslateAddress(va, e)) == PpnToPage(PteGetPpn(e))
  {
  }

  // ---- Addresses as numbers -----------------------------------------------------------

  /** An address as the walk sees it: three table indices and a byte offset. */
  datatype Address = Address(i2: nat, i1: nat, i0: nat, offset: nat) {
    function Index(level: nat): nat {
      if level == 2 then i2 else if level == 1 then i1 else i0
    }

    predicate Ok() { i2 < 512 && i1 < 512 && i0 < 512 && offset < 4096 }
  }

  function Split(va: bv64): (a: Address)
    ensures a.Ok()
  {
    IndicesDetermineAddress(va);
    SmallNumber(PageTableIndex(va, 2));
    SmallNumber(PageTableIndex(va, 1));
    SmallNumber(PageTableIndex(va, 0));
    OffsetNumber(va);
    Address(Number(PageTableIndex(va, 2)), Number(PageTableIndex(va, 1)), Number(PageTableIndex(va, 0)),
            Number(Offset(va)))
  }

  /** Which part of an address goes where: bits 30 to 38 select the entry of the root table,
      21 to 29 that of the middle table, 12 to 20 that of the leaf table, 0 to 11 the byte. */
  lemma SplitOfParts(i2: bv64, i1: bv64, i0: bv64, offset: bv64, upper: bv64)
    requires i2 < 512 && i1 < 512 && i0 < 512 && offset < 4096
    ensures Split((i2 << 30) | (i1 << 21) | (i0 << 12) | offset | (upper << 39))
         == Address(Number(i2), Number(i1), Number(i0), Number(offset))
  {
    hide Number;
    AddressDeterminesIndices(i2, i1, i0, offset, upper);
  }

  lemma SmallDigits(x: bv64)
    requires x < 512
    ensures Low8(x >> 8) < 2 && Low8(x >> 16) == 0 && Low8(x >> 24) == 0 && Low8(x >> 32) == 0 && Low8(x >> 40) == 0
  {
  }

  lemma SmallNumber(x: bv64)
    requires x < 512
    ensures Number(x) < 512
  {
    hide Low8;
    SmallDigits(x);
  }

  lemma OffsetDigits(va: bv64)
    ensures var x := Offset(va);
      Low8(x >> 8) < 16 && Low8(x >> 16) == 0 && Low8(x >> 24) == 0 && Low8(x >> 32) == 0 && Low8(x >> 40) == 0
  {
  }

  lemma OffsetNumber(va: bv64)
    ensures Number(Offset(va)) < 4096
  {
    hide Low8, Digit;
    OffsetDigits(va);
    DigitRound(Low8(Offset(va) >> 8));
    DigitRound(0);
  }

  /** Two addresses look the same to the walk exactly when their low 39 bits agree. */
  lemma SplitSeparates(va: bv64, va': bv64)
    ensures Split(va) == Split(va') <==> Walked(va) == Walked(va')
  {
    hide Number, PageTableIndex, Compose, Offset, Walked;
    IndicesDetermineAddress(va);
    IndicesDetermineAddress(va');
    if Split(va) == Split(va') {
      SamePartsSameAddress(va, va');
    }
    if Walked(va) == Walked(va') {
      LowBitsDetermineIndices(va, va');
    }
  }

  lemma SamePartsSameAddress(va: bv64, va': bv64)
    requires Split(va) == Split(va')
    ensures PageTableIndex(va, 2) == PageTableIndex(va', 2) && PageTableIndex(va, 1) == PageTableIndex(va', 1)
    ensures PageTableIndex(va, 0) == PageTableIndex(va', 0) && Offset(va) == Offset(va')
  {
    hide Number, PageTableIndex, Compose, Offset, Walked;
    IndicesDetermineAddress(va);
    IndicesDetermineAddress(va');
    NumberInjective(PageTableIndex(va, 2), PageTableIndex(va', 2));
    NumberInjective(PageTableIndex(va, 1), PageTableIndex(va', 1));
    NumberInjective(PageTableIndex(va, 0), PageTableIndex(va', 0));
    OffsetBound(va);
    OffsetBound(va');
    NumberInjective(Offset(va), Offset(va'));
  }

  lemma NumberInjective(x: bv64, y: bv64)
    requires x < 4096 && y < 4096 && Number(x) == Number(y)
    ensures x == y
  {
    hide Number, Binary;
    BinaryNumber(x);
    BinaryNumber(y);
  }

  lemma OffsetBound(va: bv64)
    ensures Offset(va) < 4096
  {
  }

  lemma LowBitsDetermineIndices(va: bv64, va': bv64)
    requires Walked(va) == Walked(va')
    ensures PageTableIndex(va, 2) == PageTableIndex(va', 2) && PageTableIndex(va, 1) == PageTableIndex(va', 1)
    ensures PageTableIndex(va, 0) == PageTableIndex(va', 0) && Offset(va) == Offset(va')
  {
  }

  // ---- Translated addresses -----------------------------------------------------------

  lemma InjectivePpn(x: bv64, y: bv64)
    requires x < 0x1000_0000_0000 && y < 0x1000_0000_0000 && Number(x) == Number(y)
    ensures x == y
  {
    hide Number, Binary;
    BinaryNumber(x);
    BinaryNumber(y);
  }

  lemma SmallPage(page: bv64)
    requires PageAligned(page) && page < 0x100_0000_0000_0000
    ensures PageToPpn(page) < 0x1000_0000_0000 && PpnToPage(PageToPpn(page)) == page
  {
  }

  lemma PageInArea(base: bv64, i: bv64)
    requires AreaFits(base) && i < 256
    ensures PagePointer(base, i) < 0x100_0000_0000_0000
  {
  }

  lemma OffsetAdds(page: bv64, va: bv64)
    requires PageAligned(page)
    ensures page | (va & 0xFFF) == page + (va & 0xFFF)
  {
  }

  lemma TranslationAdds(va: bv64, e: bv64, page: bv64)
    requires PpnToPage(PteGetPpn(e)) == page && PageAligned(page)
    ensures TranslateAddress(va, e) == page + (va & 0xFFF)
  {
    hide PpnToPage, PteGetPpn, PageAligned;
    OffsetAdds(page, va);
  }

  lemma AlignedPages(base: bv64, i: bv64)
    requires PageAligned(base)
    ensures PageAligned(PagePointer(base, i))
  {
  }

  /** An entry whose page number is that of the area plus q leads to frame q: the translated
      address is the q-th page of the area plus the low 12 bits of the virtual address. */
  lemma TranslationLandsInFrame(base: bv64, va: bv64, e: bv64, q: nat)
    requires AreaFits(base) && PageAligned(base) && q < 256
    requires Number(PteGetPpn(e)) == Number(PageToPpn(base)) + q
    ensures TranslateAddress(va, e) == PagePointer(base, Binary(q)) + (va & 0xFFF)
  {
    hide Number, Binary, PageToPpn, PpnToPage, PagePointer, AreaFits, PageAligned, PteGetPpn, TranslateAddress;
    var page := PagePointer(base, Binary(q));
    if q == 255 { LastFrame(); } else { LastBinary(q); }
    PageNumberOfFrame(base, q);
    PageInArea(base, Binary(q));
    AlignedPages(base, Binary(q));
    SmallPage(page);
    PpnOfWord(e);
    InjectivePpn(PteGetPpn(e), PageToPpn(page));
    TranslationAdds(va, e, page);
  }

  lemma LastFrame()
    ensures Binary(255) == 255
  {
    hide Number, Binary;
    SmallBinary(255);
    assert Number(255) == 255 by { OnlyLast(255); }
    BinaryNumber(255);
  }
}
