/** The bytes of a page, and the 4-byte integers that programs read and write. */
module VmsBytes {
  import opened VmsPte

  const PAGE_SIZE: nat := 4096

  /** The bytes of a word, low byte first. */
  datatype Bytes = Bytes(b0: bv8, b1: bv8, b2: bv8, b3: bv8, b4: bv8, b5: bv8, b6: bv8, b7: bv8) {
    function Get(i: nat): bv8
      requires i < 8
    {
      if i == 0 then b0 else if i == 1 then b1 else if i == 2 then b2 else if i == 3 then b3
      else if i == 4 then b4 else if i == 5 then b5 else if i == 6 then b6 else b7
    }

    function Set(i: nat, x: bv8): Bytes
      requires i < 8
    {
      if i == 0 then this.(b0 := x) else if i == 1 then this.(b1 := x) else if i == 2 then this.(b2 := x)
      else if i == 3 then this.(b3 := x) else if i == 4 then this.(b4 := x) else if i == 5 then this.(b5 := x)
      else if i == 6 then this.(b6 := x) else this.(b7 := x)
    }
  }

  function Unpack(w: bv64): Bytes {
    Bytes((w & 0xFF) as bv8, ((w >> 8) & 0xFF) as bv8, ((w >> 16) & 0xFF) as bv8, ((w >> 24) & 0xFF) as bv8,
          ((w >> 32) & 0xFF) as bv8, ((w >> 40) & 0xFF) as bv8, ((w >> 48) & 0xFF) as bv8, (w >> 56) as bv8)
  }

  function Pack(x: Bytes): bv64 {
    (x.b0 as bv64) | (x.b1 as bv64 << 8) | (x.b2 as bv64 << 16) | (x.b3 as bv64 << 24)
    | (x.b4 as bv64 << 32) | (x.b5 as bv64 << 40) | (x.b6 as bv64 << 48) | (x.b7 as bv64 << 56)
  }

  lemma UnpackPack(x: Bytes)
    ensures Unpack(Pack(x)) == x
  {
  }

  /** A word is nothing but its bytes. */
  lemma PackUnpack(w: bv64)
    ensures Pack(Unpack(w)) == w
  {
  }

  /** The byte at offset `o` of a page of 512 words. */
  function ByteAt(page: seq<Pte>, o: nat): bv8
    requires |page| == 512 && o < PAGE_SIZE
  {
    Unpack(Encode(page[o / 8])).Get(o % 8)
  }

  function PutByte(page: seq<Pte>, o: nat, x: bv8): (r: seq<Pte>)
    requires |page| == 512 && o < PAGE_SIZE
    ensures |r| == 512
  {
    page[o / 8 := Decode(Pack(Unpack(Encode(page[o / 8])).Set(o % 8, x)))]
  }

  /** Writing a byte changes that byte and no other. */
  lemma ByteAtPutByte(page: seq<Pte>, o: nat, x: bv8, o': nat)
    requires |page| == 512 && o < PAGE_SIZE && o' < PAGE_SIZE
    ensures ByteAt(PutByte(page, o, x), o') == if o' == o then x else ByteAt(page, o')
  {
    hide Encode, Decode, Pack, Unpack;
    var bytes := Unpack(Encode(page[o / 8])).Set(o % 8, x);
    EncodeDecode(Pack(bytes));
    UnpackPack(bytes);
  }

  /** Byte `b` of a 4-byte integer. */
  function IntByte(v: bv32, b: nat): bv8
    requires b < 4
  {
    if b == 0 then (v & 0xFF) as bv8 else if b == 1 then ((v >> 8) & 0xFF) as bv8
    else if b == 2 then ((v >> 16) & 0xFF) as bv8 else (v >> 24) as bv8
  }

  function IntOf(b0: bv8, b1: bv8, b2: bv8, b3: bv8): bv32 {
    (b0 as bv32) | (b1 as bv32 << 8) | (b2 as bv32 << 16) | (b3 as bv32 << 24)
  }

  lemma IntOfBytes(v: bv32)
    ensures IntOf(IntByte(v, 0), IntByte(v, 1), IntByte(v, 2), IntByte(v, 3)) == v
  {
  }

  lemma BytesOfInt(b0: bv8, b1: bv8, b2: bv8, b3: bv8)
    ensures IntByte(IntOf(b0, b1, b2, b3), 0) == b0 && IntByte(IntOf(b0, b1, b2, b3), 1) == b1
    ensures IntByte(IntOf(b0, b1, b2, b3), 2) == b2 && IntByte(IntOf(b0, b1, b2, b3), 3) == b3
  {
  }

  /** *pointer, for an int at offset `o`. */
  function ReadInt(page: seq<Pte>, o: nat): bv32
    requires |page| == 512 && o + 4 <= PAGE_SIZE
  {
    IntOf(ByteAt(page, o), ByteAt(page, o + 1), ByteAt(page, o + 2), ByteAt(page, o + 3))
  }

  /** *pointer = v, for an int at offset `o`. */
  function WriteInt(page: seq<Pte>, o: nat, v: bv32): (r: seq<Pte>)
    requires |page| == 512 && o + 4 <= PAGE_SIZE
    ensures |r| == 512
  {
    PutByte(PutByte(PutByte(PutByte(page, o, IntByte(v, 0)), o + 1, IntByte(v, 1)), o + 2, IntByte(v, 2)),
            o + 3, IntByte(v, 3))
  }

  /** Writing an int changes exactly its four bytes. */
  lemma WriteIntBytes(page: seq<Pte>, o: nat, v: bv32, o': nat)
    requires |page| == 512 && o + 4 <= PAGE_SIZE && o' < PAGE_SIZE
    ensures ByteAt(WriteInt(page, o, v), o') == if o <= o' < o + 4 then IntByte(v, o' - o) else ByteAt(page, o')
  {
    hide ByteAt, PutByte, IntByte;
    var p1 := PutByte(page, o, IntByte(v, 0));
    var p2 := PutByte(p1, o + 1, IntByte(v, 1));
    var p3 := PutByte(p2, o + 2, IntByte(v, 2));
    ByteAtPutByte(page, o, IntByte(v, 0), o');
    ByteAtPutByte(p1, o + 1, IntByte(v, 1), o');
    ByteAtPutByte(p2, o + 2, IntByte(v, 2), o');
    ByteAtPutByte(p3, o + 3, IntByte(v, 3), o');
  }

  /** What was written is read back, at any offset, aligned or not. */
  lemma ReadWritten(page: seq<Pte>, o: nat, v: bv32)
    requires |page| == 512 && o + 4 <= PAGE_SIZE
    ensures ReadInt(WriteInt(page, o, v), o) == v
  {
    hide ByteAt, WriteInt, IntByte, IntOf;
    WriteIntBytes(page, o, v, o);
    WriteIntBytes(page, o, v, o + 1);
    WriteIntBytes(page, o, v, o + 2);
    WriteIntBytes(page, o, v, o + 3);
    IntOfBytes(v);
  }

  // ---- Bytes and words ----------------------------------------------------------------

  lemma LowHalf(w: bv64, v: bv32)
    ensures Unpack((w & 0xFFFF_FFFF_0000_0000) | (v as bv64))
         == Unpack(w).Set(0, IntByte(v, 0)).Set(1, IntByte(v, 1)).Set(2, IntByte(v, 2)).Set(3, IntByte(v, 3))
  {
  }

  lemma WordOfPutByte(page: seq<Pte>, k: nat, j: nat, x: bv8)
    requires |page| == 512 && k < 512 && j < 8
    ensures 8 * k + j < PAGE_SIZE
    ensures Unpack(Encode(PutByte(page, 8 * k + j, x)[k])) == Unpack(Encode(page[k])).Set(j, x)
  {
    hide Encode, Decode, Pack, Unpack;
    var bytes := Unpack(Encode(page[k])).Set(j, x);
    assert (8 * k + j) / 8 == k && (8 * k + j) % 8 == j;
    EncodeDecode(Pack(bytes));
    UnpackPack(bytes);
  }

  /** Ints are stored with their low byte first: an int at the start of entry `k` is the low
      half of that entry. */
  lemma IntInWord(page: seq<Pte>, k: nat, v: bv32)
    requires |page| == 512 && k < 512
    ensures Encode(WriteInt(page, 8 * k, v)[k]) == (Encode(page[k]) & 0xFFFF_FFFF_0000_0000) | (v as bv64)
  {
    hide Encode, Decode, Pack, Unpack, IntByte, PutByte, WriteInt;
    LowHalf(Encode(page[k]), v);
    BytesInWord(page, k, v);
    PackUnpack(Encode(WriteInt(page, 8 * k, v)[k]));
    PackUnpack((Encode(page[k]) & 0xFFFF_FFFF_0000_0000) | (v as bv64));
  }

  lemma BytesInWord(page: seq<Pte>, k: nat, v: bv32)
    requires |page| == 512 && k < 512
    ensures Unpack(Encode(WriteInt(page, 8 * k, v)[k])) ==
      Unpack(Encode(page[k])).Set(0, IntByte(v, 0)).Set(1, IntByte(v, 1)).Set(2, IntByte(v, 2)).Set(3, IntByte(v, 3))
  {
    hide Encode, Decode, Pack, Unpack, IntByte, PutByte;
    var p1 := PutByte(page, 8 * k, IntByte(v, 0));
    var p2 := PutByte(p1, 8 * k + 1, IntByte(v, 1));
    var p3 := PutByte(p2, 8 * k + 2, IntByte(v, 2));
    WordOfPutByte(page, k, 0, IntByte(v, 0));
    WordOfPutByte(p1, k, 1, IntByte(v, 1));
    WordOfPutByte(p2, k, 2, IntByte(v, 2));
    WordOfPutByte(p3, k, 3, IntByte(v, 3));
  }
}
