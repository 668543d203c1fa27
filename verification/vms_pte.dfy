/** Page table entries: the 64-bit words of `pte.c`, and the record that each word encodes. */
module VmsPte {
  import opened Binaries

  type Ppn = n: nat | n < PPN_LIMIT

  /** A decoded word: page number, the four flags the system uses, and the 16 other bits. */
  datatype Pte = Pte(ppn: Ppn, v: bool, r: bool, w: bool, c: bool, rest: bv16)

  const ZERO_PTE: Pte := Pte(0, false, false, false, false, 0)

  // ---- The bit expressions ------------------------------------------------------------

  const PTE_CUSTOM: bv64 := 1 << 8
  const PTE_WRITE: bv64 := 1 << 2
  const PTE_READ: bv64 := 1 << 1
  const PTE_VALID: bv64 := 1 << 0
  const PPN_MASK: bv64 := (!(0 as bv64) << 20) >> 10

  predicate PteValid(e: bv64) { e & PTE_VALID != 0 }
  predicate PteRead(e: bv64) { e & PTE_READ != 0 }
  predicate PteWrite(e: bv64) { e & PTE_WRITE != 0 }
  predicate PteCustom(e: bv64) { e & PTE_CUSTOM != 0 }

  function PteGetPpn(e: bv64): bv64 { (e & PPN_MASK) >> 10 }
  function PteWithPpn(e: bv64, ppn: bv64): bv64 { (e & !PPN_MASK) | ((ppn << 20) >> 10) }

  /** Where the parts of an entry are: V is bit 0, R bit 1, W bit 2, the custom bit is bit 8,
      and the page number takes bits 10 to 53. */
  lemma BitsOfEntry(e: bv64)
    ensures PteValid(e) <==> (e & 0x1) == 0x1
    ensures PteRead(e) <==> (e & 0x2) == 0x2
    ensures PteWrite(e) <==> (e & 0x4) == 0x4
    ensures PteCustom(e) <==> (e & 0x100) == 0x100
    ensures PteGetPpn(e) == (e >> 10) & 0xFFF_FFFF_FFFF
  {
    hide PteValid, PteRead, PteWrite, PteCustom, PteGetPpn;
    ValidBit(e);
    ReadBit(e);
    WriteBit(e);
    CustomBit(e);
    PpnBits(e);
  }

  lemma ValidBit(e: bv64)
    ensures PteValid(e) <==> (e & 0x1) == 0x1
  {
  }

  lemma ReadBit(e: bv64)
    ensures PteRead(e) <==> (e & 0x2) == 0x2
  {
  }

  lemma WriteBit(e: bv64)
    ensures PteWrite(e) <==> (e & 0x4) == 0x4
  {
  }

  lemma CustomBit(e: bv64)
    ensures PteCustom(e) <==> (e & 0x100) == 0x100
  {
  }

  lemma PpnBits(e: bv64)
    ensures PteGetPpn(e) == (e >> 10) & 0xFFF_FFFF_FFFF
  {
  }

  // ---- The record view ----------------------------------------------------------------

  /** The bits that are neither page number nor V, R, W, C: 7..3, 9 and 63..54. */
  function Rest(e: bv64): bv16 {
    (((e >> 3) & 0x1F) | ((e >> 4) & 0x20) | ((e >> 48) & 0xFFC0)) as bv16
  }

  function Decode(e: bv64): Pte {
    PpnOfWord(e);
    Pte(Number(PteGetPpn(e)), PteValid(e), PteRead(e), PteWrite(e), PteCustom(e), Rest(e))
  }

  function RestBits(x: bv16): bv64 {
    ((x as bv64 & 0x1F) << 3) | ((x as bv64 & 0x20) << 4) | ((x as bv64 & 0xFFC0) << 48)
  }

  function FlagBits(v: bool, r: bool, w: bool, c: bool): bv64 {
    (if v then PTE_VALID else 0) | (if r then PTE_READ else 0) | (if w then PTE_WRITE else 0)
    | (if c then PTE_CUSTOM else 0)
  }

  function Assemble(ppn: bv64, v: bool, r: bool, w: bool, c: bool, rest: bv16): bv64 {
    (ppn << 10) | FlagBits(v, r, w, c) | RestBits(rest)
  }

  function Encode(p: Pte): bv64 { Assemble(Binary(p.ppn), p.v, p.r, p.w, p.c, p.rest) }

  lemma PpnOfWord(e: bv64)
    ensures PteGetPpn(e) < 0x1000_0000_0000 && Number(PteGetPpn(e)) < PPN_LIMIT
  {
    hide Number, Binary;
    PpnIsSmall(e);
    BinaryNumber(PteGetPpn(e));
  }

  lemma PpnIsSmall(e: bv64)
    ensures PteGetPpn(e) < 0x1000_0000_0000
  {
  }

  // ---- Words and records are the same thing -------------------------------------------

  lemma BitsOfWord(e: bv64)
    ensures Assemble(PteGetPpn(e), PteValid(e), PteRead(e), PteWrite(e), PteCustom(e), Rest(e)) == e
  {
  }

  lemma RawBitsOfRecord(n: bv64, v: bool, r: bool, w: bool, c: bool, rest: bv16)
    requires n < 0x1000_0000_0000
    ensures var e := (n << 10) | FlagBits(v, r, w, c) | RestBits(rest);
      PteGetPpn(e) == n && PteValid(e) == v && PteRead(e) == r && PteWrite(e) == w
        && PteCustom(e) == c && Rest(e) == rest
  {
  }

  lemma BitsOfRecord(n: bv64, v: bool, r: bool, w: bool, c: bool, rest: bv16)
    requires n < 0x1000_0000_0000
    ensures var e := Assemble(n, v, r, w, c, rest);
      PteGetPpn(e) == n && PteValid(e) == v && PteRead(e) == r && PteWrite(e) == w
        && PteCustom(e) == c && Rest(e) == rest
  {
    hide FlagBits, RestBits, PteGetPpn, PteValid, PteRead, PteWrite, PteCustom, Rest;
    RawBitsOfRecord(n, v, r, w, c, rest);
  }

  /** No information is lost by decoding. */
  lemma EncodeDecode(e: bv64)
    ensures Encode(Decode(e)) == e
  {
    hide Number, Binary, Assemble, PteGetPpn, Rest, PteValid, PteRead, PteWrite, PteCustom;
    PpnOfWord(e);
    BinaryNumber(PteGetPpn(e));
    BitsOfWord(e);
  }

  /** Every record is the decoding of exactly one word. */
  lemma DecodeEncode(p: Pte)
    ensures Decode(Encode(p)) == p
  {
    hide Number, Binary, Assemble, PteGetPpn, Rest, PteValid, PteRead, PteWrite, PteCustom;
    NumberBinary(p.ppn);
    BitsOfRecord(Binary(p.ppn), p.v, p.r, p.w, p.c, p.rest);
  }

  // ---- The operations of pte.c, in record terms ---------------------------------------

  /** The word that an entry pointer refers to, edited in place. */
  class Entry {
    var bits: bv64

    constructor (bits: bv64)
      ensures this.bits == bits
    {
      this.bits := bits;
    }

    method ValidClear()
      modifies this
      ensures Decode(bits) == Decode(old(bits)).(v := false)
    {
      hide Decode;
      ValidEdit(bits);
      bits := bits & !PTE_VALID;
    }

    method ValidSet()
      modifies this
      ensures Decode(bits) == Decode(old(bits)).(v := true)
    {
      hide Decode;
      ValidEdit(bits);
      bits := bits | PTE_VALID;
    }

    method ReadClear()
      modifies this
      ensures Decode(bits) == Decode(old(bits)).(r := false)
    {
      hide Decode;
      ReadEdit(bits);
      bits := bits & !PTE_READ;
    }

    method ReadSet()
      modifies this
      ensures Decode(bits) == Decode(old(bits)).(r := true)
    {
      hide Decode;
      ReadEdit(bits);
      bits := bits | PTE_READ;
    }

    method WriteClear()
      modifies this
      ensures Decode(bits) == Decode(old(bits)).(w := false)
    {
      hide Decode;
      WriteEdit(bits);
      bits := bits & !PTE_WRITE;
    }

    method WriteSet()
      modifies this
      ensures Decode(bits) == Decode(old(bits)).(w := true)
    {
      hide Decode;
      WriteEdit(bits);
      bits := bits | PTE_WRITE;
    }

    method CustomClear()
      modifies this
      ensures Decode(bits) == Decode(old(bits)).(c := false)
    {
      hide Decode;
      CustomEdit(bits);
      bits := bits & !PTE_CUSTOM;
    }

    method CustomSet()
      modifies this
      ensures Decode(bits) == Decode(old(bits)).(c := true)
    {
      hide Decode;
      CustomEdit(bits);
      bits := bits | PTE_CUSTOM;
    }

    /** Only the low 44 bits of the number are kept; the other 20 bits of the entry stay. */
    method SetPpn(ppn: bv64)
      modifies this
      ensures Number(ppn & 0xFFF_FFFF_FFFF) < PPN_LIMIT
      ensures Decode(bits) == Decode(old(bits)).(ppn := Number(ppn & 0xFFF_FFFF_FFFF))
    {
      hide Decode, Number;
      PpnEdit(bits, ppn);
      bits := bits & !PPN_MASK;
      bits := bits | ((ppn << 20) >> 10);
    }
  }

  /** The fields of a word, undecoded. */
  datatype Fields = Fields(ppn: bv64, v: bool, r: bool, w: bool, c: bool, rest: bv16)

  function FieldsOf(e: bv64): Fields {
    Fields(PteGetPpn(e), PteValid(e), PteRead(e), PteWrite(e), PteCustom(e), Rest(e))
  }

  lemma ValidFieldEdit(e: bv64)
    ensures FieldsOf(Without(e, PTE_VALID)) == FieldsOf(e).(v := false)
    ensures FieldsOf(With(e, PTE_VALID)) == FieldsOf(e).(v := true)
  {
  }

  lemma ReadFieldEdit(e: bv64)
    ensures FieldsOf(Without(e, PTE_READ)) == FieldsOf(e).(r := false)
    ensures FieldsOf(With(e, PTE_READ)) == FieldsOf(e).(r := true)
  {
  }

  lemma WriteFieldEdit(e: bv64)
    ensures FieldsOf(Without(e, PTE_WRITE)) == FieldsOf(e).(w := false)
    ensures FieldsOf(With(e, PTE_WRITE)) == FieldsOf(e).(w := true)
  {
  }

  lemma CustomFieldEdit(e: bv64)
    ensures FieldsOf(Without(e, PTE_CUSTOM)) == FieldsOf(e).(c := false)
    ensures FieldsOf(With(e, PTE_CUSTOM)) == FieldsOf(e).(c := true)
  {
  }

  function With(e: bv64, flag: bv64): bv64 { e | flag }
  function Without(e: bv64, flag: bv64): bv64 { e & !flag }

  lemma ValidEdit(e: bv64)
    ensures Decode(Without(e, PTE_VALID)) == Decode(e).(v := false)
    ensures Decode(With(e, PTE_VALID)) == Decode(e).(v := true)
  {
    hide Number, Rest, PteGetPpn, PteValid, PteRead, PteWrite, PteCustom, With, Without;
    ValidFieldEdit(e);
  }

  lemma ReadEdit(e: bv64)
    ensures Decode(Without(e, PTE_READ)) == Decode(e).(r := false)
    ensures Decode(With(e, PTE_READ)) == Decode(e).(r := true)
  {
    hide Number, Rest, PteGetPpn, PteValid, PteRead, PteWrite, PteCustom, With, Without;
    ReadFieldEdit(e);
  }

  lemma WriteEdit(e: bv64)
    ensures Decode(Without(e, PTE_WRITE)) == Decode(e).(w := false)
    ensures Decode(With(e, PTE_WRITE)) == Decode(e).(w := true)
  {
    hide Number, Rest, PteGetPpn, PteValid, PteRead, PteWrite, PteCustom, With, Without;
    WriteFieldEdit(e);
  }

  lemma CustomEdit(e: bv64)
    ensures Decode(Without(e, PTE_CUSTOM)) == Decode(e).(c := false)
    ensures Decode(With(e, PTE_CUSTOM)) == Decode(e).(c := true)
  {
    hide Number, Rest, PteGetPpn, PteValid, PteRead, PteWrite, PteCustom, With, Without;
    CustomFieldEdit(e);
  }

  /** Each setter changes its own flag and nothing else. */
  lemma FlagEdits(e: bv64)
    ensures var p := Decode(e);
      && Decode(Without(e, PTE_VALID)) == p.(v := false) && Decode(With(e, PTE_VALID)) == p.(v := true)
      && Decode(Without(e, PTE_READ)) == p.(r := false) && Decode(With(e, PTE_READ)) == p.(r := true)
      && Decode(Without(e, PTE_WRITE)) == p.(w := false) && Decode(With(e, PTE_WRITE)) == p.(w := true)
      && Decode(Without(e, PTE_CUSTOM)) == p.(c := false) && Decode(With(e, PTE_CUSTOM)) == p.(c := true)
  {
    hide Decode, With, Without;
    ValidEdit(e);
    ReadEdit(e);
    WriteEdit(e);
    CustomEdit(e);
  }

  lemma PpnFieldEdit(e: bv64, ppn: bv64)
    ensures FieldsOf((e & !PPN_MASK) | ((ppn << 20) >> 10)) == FieldsOf(e).(ppn := ppn & 0xFFF_FFFF_FFFF)
    ensures ppn & 0xFFF_FFFF_FFFF < 0x1000_0000_0000
  {
  }

  lemma PpnEdit(e: bv64, ppn: bv64)
    ensures Number(ppn & 0xFFF_FFFF_FFFF) < PPN_LIMIT
    ensures Decode((e & !PPN_MASK) | ((ppn << 20) >> 10)) == Decode(e).(ppn := Number(ppn & 0xFFF_FFFF_FFFF))
  {
    hide Number, Rest, PteGetPpn, PteValid, PteRead, PteWrite, PteCustom;
    PpnFieldEdit(e, ppn);
    BinaryNumber(ppn & 0xFFF_FFFF_FFFF);
  }
}
