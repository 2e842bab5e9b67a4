/** MBR partition tables: CHS packing, slot layout, writer and reader (UEFI Specification, section 5.2.1). */
module Mbr {
  import opened Wrappers
  import opened Bytes

  const MBR_SIZE := 512
  const TABLE_OFFSET := 446
  const SLOT_SIZE := 16
  const HEADS := 255
  const SECTORS := 63
  /** First sector that has no CHS address. */
  const CHS_LIMIT := 1024 * 63 * 255
  const PART_EMPTY := 0

  datatype Entry = Entry(lbaStart: int, lbaSize: int, ptype: int, bootable: bool)

  datatype Error = TooManyPartitions | FieldOutOfRange | TooShort | BadSignature

  // ---------------------------------------------------------------------
  // CHS addresses
  // ---------------------------------------------------------------------

  /** The three packed bytes of a sector address; floor division makes it total on all integers. */
  function LbaToChs(lba: int): (b: Blob)
    ensures |b| == 3
  {
    if lba >= CHS_LIMIT then [0xFF, 0xFF, 0xFF]
    else
      var c := lba / 16065;
      var temp := lba % 16065;
      var h := temp / 63;
      var s := temp % 63 + 1;
      [h % 256, s % 64 + (c / 256) % 4 * 64, c % 256]
  }

  function Cylinder(b: Blob): int
    requires |b| == 3
  {
    b[2] + b[1] as int / 64 * 256
  }

  function Head(b: Blob): int
    requires |b| == 3
  {
    b[0]
  }

  function Sector(b: Blob): int
    requires |b| == 3
  {
    b[1] % 64
  }

  function ChsToLba(b: Blob): int
    requires |b| == 3
  {
    (Cylinder(b) * HEADS + Head(b)) * SECTORS + Sector(b) - 1
  }

  /** Cylinder, head and sector of an address that has one. */
  lemma ChsParts(lba: int)
    requires 0 <= lba < CHS_LIMIT
    ensures var b := LbaToChs(lba);
      && Cylinder(b) == lba / 16065 <= 1023
      && Head(b) == lba % 16065 / 63 <= 254
      && Sector(b) == lba % 16065 % 63 + 1
      && 1 <= Sector(b) <= 63
  {
    var c := lba / 16065;
    assert c <= 1023;
    assert c == c / 256 * 256 + c % 256;
  }

  /** Decoding recovers every address below the limit. */
  lemma ChsRoundTrip(lba: int)
    requires 0 <= lba < CHS_LIMIT
    ensures ChsToLba(LbaToChs(lba)) == lba
  {
    ChsParts(lba);
  }

  /** Every geometry-conforming triple of bytes is the encoding of its address. */
  lemma ChsOnto(b: Blob)
    requires |b| == 3 && Head(b) <= 254 && 1 <= Sector(b)
    ensures 0 <= ChsToLba(b) < CHS_LIMIT && LbaToChs(ChsToLba(b)) == b
  {
    var lba := ChsToLba(b);
    var c, temp := Cylinder(b), Head(b) * 63 + Sector(b) - 1;
    assert lba == c * 16065 + temp && 0 <= temp < 16065;
    assert lba / 16065 == c && lba % 16065 == temp;
    assert temp / 63 == Head(b) && temp % 63 == Sector(b) - 1;
    assert b[1] == b[1] / 64 * 64 + b[1] % 64;
  }

  predicate ChsBefore(a: Blob, b: Blob)
    requires |a| == 3 && |b| == 3
  {
    Cylinder(a) < Cylinder(b) ||
    (Cylinder(a) == Cylinder(b) && (Head(a) < Head(b) || (Head(a) == Head(b) && Sector(a) < Sector(b))))
  }

  /** Lexicographic (cylinder, head, sector) order is address order. */
  lemma ChsKeepsOrder(x: int, y: int)
    requires 0 <= x < CHS_LIMIT && 0 <= y < CHS_LIMIT
    ensures x < y <==> ChsBefore(LbaToChs(x), LbaToChs(y))
  {
    ChsParts(x);
    ChsParts(y);
  }

  /** The out-of-range marker stands exactly for the addresses at or above the limit. */
  lemma ChsMarker(lba: int)
    ensures LbaToChs(lba) == [0xFF, 0xFF, 0xFF] <==> lba >= CHS_LIMIT
  {
  }

  // ---------------------------------------------------------------------
  // Little-endian 32-bit fields
  // ---------------------------------------------------------------------

  predicate IsU32(n: int) {
    0 <= n < 0x1_0000_0000
  }

  function PackU32(n: int): (b: Blob)
    requires IsU32(n)
    ensures |b| == 4
  {
    [n % 256, n / 256 % 256, n / 65536 % 256, n / 16777216]
  }

  function UnpackU32(b: Blob): (n: int)
    requires |b| == 4
    ensures IsU32(n)
  {
    b[0] + b[1] as int * 256 + b[2] as int * 65536 + b[3] as int * 16777216
  }

  lemma U32RoundTrip(n: int)
    requires IsU32(n)
    ensures UnpackU32(PackU32(n)) == n
  {
    assert n / 65536 == n / 256 / 256;
    assert n / 16777216 == n / 65536 / 256;
  }

  // ---------------------------------------------------------------------
  // Slots
  // ---------------------------------------------------------------------

  predicate InRange(e: Entry) {
    IsU32(e.lbaStart) && IsU32(e.lbaSize) && 0 <= e.ptype < 256
  }

  function PackEntry(e: Entry): (b: Blob)
    requires InRange(e)
    ensures |b| == SLOT_SIZE
  {
    [if e.bootable then 0x80 else 0x00] + LbaToChs(e.lbaStart) + [e.ptype]
      + LbaToChs(e.lbaStart + e.lbaSize - 1) + PackU32(e.lbaStart) + PackU32(e.lbaSize)
  }

  function UnpackEntry(slot: Blob): (e: Entry)
    requires |slot| == SLOT_SIZE
    ensures InRange(e)
  {
    Entry(UnpackU32(slot[8..12]), UnpackU32(slot[12..16]), slot[4], slot[0] == 0x80)
  }

  lemma EntryRoundTrip(e: Entry)
    requires InRange(e)
    ensures UnpackEntry(PackEntry(e)) == e
  {
    var b := PackEntry(e);
    assert b[8..12] == PackU32(e.lbaStart);
    assert b[12..16] == PackU32(e.lbaSize);
    U32RoundTrip(e.lbaStart);
    U32RoundTrip(e.lbaSize);
  }

  /** A packed entry is never all zeros, whatever its type: its start address has a sector number. */
  lemma PackedIsNotBlank(e: Entry)
    requires InRange(e)
    ensures PackEntry(e)[2] != 0
  {
    SectorIsNotBlank(e.lbaStart);
    assert PackEntry(e)[2] == LbaToChs(e.lbaStart)[1];
  }

  lemma SectorIsNotBlank(lba: int)
    requires 0 <= lba
    ensures LbaToChs(lba)[1] != 0
  {
    var s := lba % 16065 % 63 + 1;
    assert 1 <= s <= 63 && s % 64 == s;
  }

  function Zeros(n: nat): (b: Blob)
    ensures |b| == n
  {
    seq(n, i => 0)
  }

  /** The content of slot `i`; unused slots are blank. */
  function SlotBytes(es: seq<Entry>, i: nat): (b: Blob)
    ensures |b| == SLOT_SIZE
  {
    if i < |es| && InRange(es[i]) then PackEntry(es[i]) else Zeros(SLOT_SIZE)
  }

  ghost predicate Writable(es: seq<Entry>) {
    |es| <= 4 && forall i :: 0 <= i < |es| ==> InRange(es[i])
  }

  /** No boot code, four slots, signature. */
  function ImageByte(es: seq<Entry>, k: nat): Byte
    requires k < MBR_SIZE
  {
    if k < TABLE_OFFSET then 0
    else if k < 462 then SlotBytes(es, 0)[k - 446]
    else if k < 478 then SlotBytes(es, 1)[k - 462]
    else if k < 494 then SlotBytes(es, 2)[k - 478]
    else if k < 510 then SlotBytes(es, 3)[k - 494]
    else if k == 510 then 0x55
    else 0xAA
  }

  /** The whole sector. */
  ghost function Image(es: seq<Entry>): (b: Blob)
    ensures |b| == MBR_SIZE
  {
    seq(MBR_SIZE, k requires 0 <= k < MBR_SIZE => ImageByte(es, k))
  }

  function SlotAt(data: Blob, i: nat): (b: Blob)
    requires i < 4 && |data| >= MBR_SIZE
    ensures |b| == SLOT_SIZE
  {
    data[446 + 16 * i..446 + 16 * i + 16]
  }

  lemma SlotByte(es: seq<Entry>, i: nat, k: nat)
    requires i < 4 && k < 16
    ensures ImageByte(es, 446 + 16 * i + k) == SlotBytes(es, i)[k]
  {
    assert i == 0 || i == 1 || i == 2 || i == 3;
  }

  lemma SlotOfImage(es: seq<Entry>, i: nat)
    requires i < 4
    ensures SlotAt(Image(es), i) == SlotBytes(es, i)
  {
    var slot := SlotAt(Image(es), i);
    forall k | 0 <= k < 16 ensures slot[k] == SlotBytes(es, i)[k] {
      SlotByte(es, i, k);
    }
  }

  /** 446 zero bytes, the four slots, and the two signature bytes make up the 512-byte sector. */
  lemma ImageLayout(es: seq<Entry>)
    ensures Image(es)[..TABLE_OFFSET] == Zeros(TABLE_OFFSET)
    ensures forall i: nat :: i < 4 ==> SlotAt(Image(es), i) == SlotBytes(es, i)
    ensures Image(es)[510..512] == [0x55, 0xAA]
  {
    forall i: nat | i < 4 {
      SlotOfImage(es, i);
    }
  }

  // ---------------------------------------------------------------------
  // Writer and reader
  // ---------------------------------------------------------------------

  /** Stores the i-th slot behind the part that is already written. */
  method WriteSlot(mbr: array<Byte>, es: seq<Entry>, i: nat)
    requires mbr.Length == MBR_SIZE && i < 4
    requires forall k :: 0 <= k < 446 + 16 * i ==> mbr[k] == ImageByte(es, k)
    modifies mbr
    ensures forall k :: 0 <= k < 462 + 16 * i ==> mbr[k] == ImageByte(es, k)
  {
    var offset := TABLE_OFFSET + 16 * i;
    var slot := SlotBytes(es, i);
    forall k | 0 <= k < SLOT_SIZE {
      mbr[offset + k] := slot[k];
    }
    forall k | offset <= k < offset + SLOT_SIZE ensures mbr[k] == ImageByte(es, k) {
      SlotByte(es, i, k - offset);
    }
  }

  lemma FilledIsImage(b: Blob, es: seq<Entry>)
    requires |b| == MBR_SIZE && b[510] == 0x55 && b[511] == 0xAA
    requires forall k :: 0 <= k < 510 ==> b[k] == ImageByte(es, k)
    ensures b == Image(es)
  {
  }
  /** Too many entries are refused first, then the first entry with a field that does not fit. */
  method WriteMbr(es: seq<Entry>) returns (r: Result<Blob, Error>)
    ensures r.Ok? <==> Writable(es)
    ensures r.Ok? ==> r.value == Image(es)
    ensures |es| > 4 ==> r == Err(TooManyPartitions)
  {
    if |es| > 4 {
      return Err(TooManyPartitions);
    }
    var mbr := new Byte[MBR_SIZE](i => 0);
    var i := 0;
    while i < 4
      invariant 0 <= i <= 4
      invariant forall j :: 0 <= j < i && j < |es| ==> InRange(es[j])
      invariant forall k :: 0 <= k < 446 + 16 * i ==> mbr[k] == ImageByte(es, k)
    {
      if i < |es| && !InRange(es[i]) {
        return Err(FieldOutOfRange);
      }
      WriteSlot(mbr, es, i);
      i := i + 1;
    }
    mbr[510], mbr[511] := 0x55, 0xAA;
    FilledIsImage(mbr[..], es);
    return Ok(mbr[..]);
  }

  ghost predicate Readable(data: Blob) {
    |data| >= MBR_SIZE && data[510..512] == [0x55, 0xAA]
  }

  /** The non-empty entries of the first `n` slots, in slot order. */
  ghost function Entries(data: Blob, n: nat): (es: seq<Entry>)
    requires n <= 4 && |data| >= MBR_SIZE
    ensures |es| <= n
    ensures forall i :: 0 <= i < |es| ==> InRange(es[i]) && es[i].ptype != PART_EMPTY
  {
    if n == 0 then []
    else
      var e := UnpackEntry(SlotAt(data, n - 1));
      Entries(data, n - 1) + (if e.ptype != PART_EMPTY then [e] else [])
  }

  method ReadMbr(data: Blob) returns (r: Result<seq<Entry>, Error>)
    ensures r.Ok? <==> Readable(data)
    ensures r.Ok? ==> r.value == Entries(data, 4)
    ensures |data| < MBR_SIZE ==> r == Err(TooShort)
  {
    if |data| < MBR_SIZE {
      return Err(TooShort);
    }
    if data[510..512] != [0x55, 0xAA] {
      return Err(BadSignature);
    }
    var entries := [];
    var i := 0;
    while i < 4
      invariant 0 <= i <= 4
      invariant entries == Entries(data, i)
    {
      var e := UnpackEntry(SlotAt(data, i));
      if e.ptype != PART_EMPTY {
        entries := entries + [e];
      }
      i := i + 1;
    }
    return Ok(entries);
  }

  // ---------------------------------------------------------------------
  // Round trips
  // ---------------------------------------------------------------------

  function NonEmpty(es: seq<Entry>): (r: seq<Entry>)
    ensures |r| <= |es|
    ensures forall i :: 0 <= i < |r| ==> r[i] in es && r[i].ptype != PART_EMPTY
  {
    if es == [] then []
    else
      var e := es[|es| - 1];
      NonEmpty(es[..|es| - 1]) + (if e.ptype != PART_EMPTY then [e] else [])
  }

  /** What a slot of a written sector unpacks to. */
  lemma SlotEntry(es: seq<Entry>, i: nat)
    requires Writable(es) && i < 4
    ensures i < |es| ==> UnpackEntry(SlotAt(Image(es), i)) == es[i]
    ensures i >= |es| ==> UnpackEntry(SlotAt(Image(es), i)).ptype == PART_EMPTY
  {
    SlotOfImage(es, i);
    if i < |es| {
      EntryRoundTrip(es[i]);
    }
  }

  lemma NonEmptyNext(es: seq<Entry>, n: nat)
    requires n < |es|
    ensures NonEmpty(es[..n + 1]) == NonEmpty(es[..n]) + (if es[n].ptype != PART_EMPTY then [es[n]] else [])
  {
    assert es[..n + 1][..n] == es[..n];
  }

  lemma {:induction false} EntriesOfImage(es: seq<Entry>, n: nat)
    requires Writable(es) && n <= 4
    ensures Entries(Image(es), n) == NonEmpty(First(es, n))
  {
    if n > 0 {
      var image, e := Image(es), UnpackEntry(SlotAt(Image(es), n - 1));
      EntriesOfImage(es, n - 1);
      SlotEntry(es, n - 1);
      assert Entries(image, n) == Entries(image, n - 1) + (if e.ptype != PART_EMPTY then [e] else []);
      NonEmptyFirst(es, n);
    }
  }

  function First(es: seq<Entry>, n: nat): seq<Entry> {
    if n <= |es| then es[..n] else es
  }

  lemma NonEmptyFirst(es: seq<Entry>, n: nat)
    requires n > 0
    ensures NonEmpty(First(es, n))
         == NonEmpty(First(es, n - 1)) + (if n <= |es| && es[n - 1].ptype != PART_EMPTY then [es[n - 1]] else [])
  {
    if n <= |es| {
      NonEmptyNext(es, n - 1);
    } else {
      assert First(es, n - 1) == es;
    }
  }

  /** Reading a written sector gives back exactly the non-empty entries, in order. */
  lemma ReadAfterWrite(es: seq<Entry>)
    requires Writable(es)
    ensures Readable(Image(es)) && Entries(Image(es), 4) == NonEmpty(es)
  {
    ImageLayout(es);
    EntriesOfImage(es, 4);
    assert First(es, 4) == es;
  }

  lemma {:induction false} NonEmptyOfAll(es: seq<Entry>)
    ensures NonEmpty(es) == es <==> forall i :: 0 <= i < |es| ==> es[i].ptype != PART_EMPTY
    ensures |NonEmpty(es)| == |es| ==> NonEmpty(es) == es
  {
    if es != [] {
      var init := es[..|es| - 1];
      NonEmptyOfAll(init);
      assert es == init + [es[|es| - 1]];
    }
  }

  /** Writing back what was read reproduces the sector exactly when no written entry had type 0. */
  lemma WriteAfterRead(es: seq<Entry>)
    requires Writable(es)
    ensures Writable(NonEmpty(es))
    ensures Image(NonEmpty(es)) == Image(es) <==> forall i :: 0 <= i < |es| ==> es[i].ptype != PART_EMPTY
  {
    forall i | 0 <= i < |NonEmpty(es)| ensures InRange(NonEmpty(es)[i]) {
      assert NonEmpty(es)[i] in es;
    }
    NonEmptyOfAll(es);
    if NonEmpty(es) != es {
      var last := |es| - 1;
      ImageLayout(es);
      ImageLayout(NonEmpty(es));
      PackedIsNotBlank(es[last]);
      assert SlotAt(Image(es), last) == PackEntry(es[last]);
      assert SlotAt(Image(NonEmpty(es)), last) == Zeros(SLOT_SIZE);
    }
  }

  /** Any readable sector, written back, reads the same again. */
  lemma ReadIsStable(data: Blob)
    requires Readable(data)
    ensures Writable(Entries(data, 4)) && Entries(Image(Entries(data, 4)), 4) == Entries(data, 4)
  {
    ReadAfterWrite(Entries(data, 4));
    NonEmptyOfAll(Entries(data, 4));
  }

  // ---------------------------------------------------------------------
  // The bytes of a written sector
  // ---------------------------------------------------------------------

  /** The three bytes are the CHS address of `lba`, or the marker for addresses without one. */
  predicate IsChs(b: Blob, lba: int)
    requires |b| == 3
  {
    if lba < 1024 * 63 * 255 then ChsToLba(b) == lba else b == [0xFF, 0xFF, 0xFF]
  }

  /** The four bytes are `n`, least significant byte first. */
  predicate IsLittleEndian(b: Blob, n: int)
    requires |b| == 4
  {
    b[0] as int + 256 * b[1] as int + 65536 * b[2] as int + 16777216 * b[3] as int == n
  }

  /** Flag, start address, type, end address, first sector and size of every used slot; the rest is blank. */
  lemma WrittenSlot(es: seq<Entry>, i: nat)
    requires Writable(es) && i < 4
    ensures var slot := SlotAt(Image(es), i);
      i < |es| ==>
        && slot[0] == (if es[i].bootable then 0x80 else 0x00)
        && IsChs(slot[1..4], es[i].lbaStart)
        && slot[4] == es[i].ptype
        && (es[i].lbaStart + es[i].lbaSize >= 1 ==> IsChs(slot[5..8], es[i].lbaStart + es[i].lbaSize - 1))
        && IsLittleEndian(slot[8..12], es[i].lbaStart)
        && IsLittleEndian(slot[12..16], es[i].lbaSize)
    ensures i >= |es| ==> forall k :: 0 <= k < 16 ==> SlotAt(Image(es), i)[k] == 0
  {
    SlotOfImage(es, i);
    if i < |es| {
      PackedFields(es[i]);
    }
  }

  lemma PackedParts(e: Entry)
    requires InRange(e)
    ensures var slot := PackEntry(e);
      && slot[0] == (if e.bootable then 0x80 else 0x00) && slot[4] == e.ptype
      && slot[1..4] == LbaToChs(e.lbaStart) && slot[5..8] == LbaToChs(e.lbaStart + e.lbaSize - 1)
      && slot[8..12] == PackU32(e.lbaStart) && slot[12..16] == PackU32(e.lbaSize)
  {
  }

  lemma PackedFields(e: Entry)
    requires InRange(e)
    ensures var slot := PackEntry(e);
      && slot[0] == (if e.bootable then 0x80 else 0x00)
      && IsChs(slot[1..4], e.lbaStart)
      && slot[4] == e.ptype
      && (e.lbaStart + e.lbaSize >= 1 ==> IsChs(slot[5..8], e.lbaStart + e.lbaSize - 1))
      && IsLittleEndian(slot[8..12], e.lbaStart)
      && IsLittleEndian(slot[12..16], e.lbaSize)
  {
    PackedParts(e);
    ChsIs(e.lbaStart);
    if e.lbaStart + e.lbaSize >= 1 {
      ChsIs(e.lbaStart + e.lbaSize - 1);
    }
    LittleEndianIs(e.lbaStart);
    LittleEndianIs(e.lbaSize);
  }

  lemma ChsIs(lba: int)
    requires 0 <= lba
    ensures IsChs(LbaToChs(lba), lba)
  {
    if lba < CHS_LIMIT {
      ChsRoundTrip(lba);
    }
  }

  lemma LittleEndianIs(n: int)
    requires IsU32(n)
    ensures IsLittleEndian(PackU32(n), n)
  {
    U32RoundTrip(n);
  }

  /** No boot code, and the signature at the end. */
  lemma SectorFrame(es: seq<Entry>)
    ensures |Image(es)| == 512 && Image(es)[510] == 0x55 && Image(es)[511] == 0xAA
    ensures forall k :: 0 <= k < 446 ==> Image(es)[k] == 0
  {
  }
}
