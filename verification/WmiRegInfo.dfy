/**
 * The registration block that the WMI library builds for a driver (wmilib/wmilib.c), byte for byte, with
 * the 32-bit layout of wmistr.h, which is not part of this model: a header of 20 bytes, 28 bytes for each
 * GUID, then counted strings.
 */
module WmiRegInfo {
  import opened Base

  type Byte = x: int | 0 <= x < 256

  const HEADER_SIZE: nat := 20
  const GUID_SIZE: nat := 28

  const FLAG_LIST: bv32 := 0x4
  const FLAG_BASENAME: bv32 := 0x8
  const FLAG_PDO: bv32 := 0x20

  datatype GuidEntry = GuidEntry(guid: seq<Byte>, flags: bv32, instanceCount: U32)

  /** A WMIREGGUID as it stands in the block. */
  datatype GuidRecord = GuidRecord(guid: seq<Byte>, flags: U32, instanceCount: U32, info: U32)

  /** What the driver's QueryWmiRegInfo callback answers, and its list of GUIDs. */
  datatype Registration = Registration(
    nameFlags: bv32,
    name: Option<seq<Byte>>,
    regPath: Option<seq<Byte>>,
    mof: seq<Byte>,
    pdo: U32,
    guids: seq<GuidEntry>
  )

  // ---- Little-endian numbers

  function Le16(x: nat): (s: seq<Byte>)
    requires x < 0x10000
    ensures |s| == 2
  {
    [x % 0x100, x / 0x100]
  }

  function Le32(x: U32): (s: seq<Byte>)
    ensures |s| == 4
  {
    Le16(x % 0x10000) + Le16(x / 0x10000)
  }

  function U16At(b: seq<Byte>, off: nat): nat
    requires off + 2 <= |b|
  {
    var low: nat := b[off];
    var high: nat := b[off + 1];
    low + 0x100 * high
  }

  function U32At(b: seq<Byte>, off: nat): nat
    requires off + 4 <= |b|
  {
    U16At(b, off) + 0x10000 * U16At(b, off + 2)
  }

  /** The bytes p stand in b at an offset. */
  ghost predicate Holds(b: seq<Byte>, off: nat, p: seq<Byte>) {
    off + |p| <= |b| && b[off..off + |p|] == p
  }

  lemma HoldsConcat(b: seq<Byte>, off: nat, p: seq<Byte>, q: seq<Byte>)
    ensures Holds(b, off, p + q) <==> Holds(b, off, p) && Holds(b, off + |p|, q)
  {
    if off + |p| + |q| <= |b| {
      var s := b[off..off + |p| + |q|];
      assert s[..|p|] == b[off..off + |p|];
      assert s[|p|..] == b[off + |p|..off + |p| + |q|];
      assert s == s[..|p|] + s[|p|..];
      assert (p + q)[..|p|] == p && (p + q)[|p|..] == q;
    }
  }

  lemma {:induction false} U16Held(b: seq<Byte>, off: nat, x: nat)
    requires x < 0x10000 && Holds(b, off, Le16(x))
    ensures U16At(b, off) == x
  {
    assert b[off] == b[off..off + 2][0] && b[off + 1] == b[off..off + 2][1];
  }

  /** Reading a number back where it was written. */
  lemma {:induction false} U32Held(b: seq<Byte>, off: nat, x: U32)
    requires Holds(b, off, Le32(x))
    ensures U32At(b, off) == x
  {
    HoldsConcat(b, off, Le16(x % 0x10000), Le16(x / 0x10000));
    U16Held(b, off, x % 0x10000);
    U16Held(b, off + 2, x / 0x10000);
  }

  // ---- Counted strings

  function Counted(s: seq<Byte>): seq<Byte>
    requires |s| < 0x10000
  {
    Le16(|s|) + s
  }

  function StringAt(b: seq<Byte>, off: nat): Option<seq<Byte>> {
    if off + 2 <= |b| && off + 2 + U16At(b, off) <= |b| then Some(b[off + 2..off + 2 + U16At(b, off)]) else None
  }

  lemma StringHeld(b: seq<Byte>, off: nat, s: seq<Byte>)
    requires |s| < 0x10000 && Holds(b, off, Counted(s))
    ensures StringAt(b, off) == Some(s)
  {
    HoldsConcat(b, off, Le16(|s|), s);
    U16Held(b, off, |s|);
  }

  // ---- The block

  predicate HasPdo(r: Registration) {
    r.nameFlags & FLAG_PDO != 0
  }

  /** The flags with which the GUIDs are registered. */
  function NameFlags(r: Registration): bv32 {
    if HasPdo(r) || r.nameFlags & FLAG_BASENAME != 0 then r.nameFlags else r.nameFlags | FLAG_LIST
  }

  predicate WritesName(r: Registration) {
    NameFlags(r) & (FLAG_LIST | FLAG_BASENAME) != 0
  }

  function Name(r: Registration): seq<Byte> {
    if r.name.Some? then r.name.value else []
  }

  function RegPath(r: Registration): seq<Byte> {
    if r.regPath.Some? then r.regPath.value else []
  }

  function NameOffset(r: Registration): nat {
    HEADER_SIZE + GUID_SIZE * |r.guids|
  }

  function MofOffset(r: Registration): nat {
    NameOffset(r) + if HasPdo(r) then 0 else |Name(r)| + 2
  }

  function RegPathOffset(r: Registration): nat {
    MofOffset(r) + |r.mof| + 2
  }

  function Needed(r: Registration): nat {
    RegPathOffset(r) + |RegPath(r)| + 2
  }

  /** The lengths are those of UNICODE_STRINGs, GUIDs have 16 bytes, and the block is smaller than 4 GB. */
  ghost predicate Fits(r: Registration) {
    && |Name(r)| < 0x10000 && |r.mof| < 0x10000 && |RegPath(r)| < 0x10000
    && (forall i :: 0 <= i < |r.guids| ==> |r.guids[i].guid| == 16)
    && Needed(r) < TWO32
  }

  function NameInfo(r: Registration): U32
    requires NameOffset(r) < TWO32
  {
    if HasPdo(r) then r.pdo else NameOffset(r)
  }

  function Header(r: Registration): seq<Byte>
    requires Needed(r) < TWO32
  {
    Le32(Needed(r)) + Le32(0) + Le32(RegPathOffset(r)) + Le32(MofOffset(r)) + Le32(|r.guids|)
  }

  /** Every GUID is registered with its own flags and those of the names. */
  function Record(g: GuidEntry, nameFlags: bv32, info: U32): GuidRecord {
    GuidRecord(g.guid, (g.flags | nameFlags) as int, g.instanceCount, info)
  }

  function Records(guids: seq<GuidEntry>, nameFlags: bv32, info: U32): (records: seq<GuidRecord>)
    ensures |records| == |guids|
    ensures forall i :: 0 <= i < |guids| ==> records[i] == Record(guids[i], nameFlags, info)
  {
    seq(|guids|, i requires 0 <= i < |guids| => Record(guids[i], nameFlags, info))
  }

  function GuidBytes(g: GuidRecord): seq<Byte> {
    g.guid + Le32(g.flags) + Le32(g.instanceCount) + Le32(g.info)
  }

  function GuidsBytes(records: seq<GuidRecord>): seq<Byte> {
    if records == [] then []
    else GuidsBytes(records[..|records| - 1]) + GuidBytes(records[|records| - 1])
  }

  ghost predicate Sized(records: seq<GuidRecord>) {
    forall i :: 0 <= i < |records| ==> |records[i].guid| == 16
  }

  ghost function BlockRecords(r: Registration): (records: seq<GuidRecord>)
    requires Fits(r)
    ensures Sized(records) && |records| == |r.guids|
  {
    Records(r.guids, NameFlags(r), NameInfo(r))
  }

  /** The strings: the name only when instances are named by it. */
  function Strings(r: Registration): seq<Byte>
    requires |Name(r)| < 0x10000 && |r.mof| < 0x10000 && |RegPath(r)| < 0x10000
  {
    (if HasPdo(r) then [] else Counted(Name(r))) + Counted(r.mof) + Counted(RegPath(r))
  }

  ghost function Block(r: Registration): seq<Byte>
    requires Fits(r)
  {
    Header(r) + GuidsBytes(BlockRecords(r)) + Strings(r)
  }

  // ---- Reading the block back

  lemma {:induction false} GuidsBytesLength(records: seq<GuidRecord>)
    requires Sized(records)
    ensures |GuidsBytes(records)| == GUID_SIZE * |records|
  {
    if records != [] {
      GuidsBytesLength(records[..|records| - 1]);
    }
  }

  lemma {:induction false} BlockLength(r: Registration)
    requires Fits(r)
    ensures |Block(r)| == Needed(r)
    ensures |Header(r)| == HEADER_SIZE
  {
    GuidsBytesLength(BlockRecords(r));
  }

  lemma {:induction false} HeaderHeld(b: seq<Byte>, r: Registration)
    requires Needed(r) < TWO32 && Holds(b, 0, Header(r))
    ensures U32At(b, 0) == Needed(r) && U32At(b, 4) == 0
    ensures U32At(b, 8) == RegPathOffset(r) && U32At(b, 12) == MofOffset(r) && U32At(b, 16) == |r.guids|
  {
    var v := [Le32(Needed(r)), Le32(0), Le32(RegPathOffset(r)), Le32(MofOffset(r)), Le32(|r.guids|)];
    HoldsConcat(b, 0, v[0] + v[1] + v[2] + v[3], v[4]);
    HoldsConcat(b, 0, v[0] + v[1] + v[2], v[3]);
    HoldsConcat(b, 0, v[0] + v[1], v[2]);
    HoldsConcat(b, 0, v[0], v[1]);
    U32Held(b, 0, Needed(r));
    U32Held(b, 4, 0);
    U32Held(b, 8, RegPathOffset(r));
    U32Held(b, 12, MofOffset(r));
    U32Held(b, 16, |r.guids|);
  }

  /** The 28 bytes of GUID i. */
  lemma {:induction false} GuidsHeld(b: seq<Byte>, off: nat, records: seq<GuidRecord>, i: nat)
    requires i < |records| && Sized(records) && Holds(b, off, GuidsBytes(records))
    ensures Holds(b, off + GUID_SIZE * i, GuidBytes(records[i]))
  {
    var n := |records| - 1;
    LastGuid(b, off, records);
    if i < n {
      GuidsHeld(b, off, records[..n], i);
    }
  }

  lemma {:induction false} LastGuid(b: seq<Byte>, off: nat, records: seq<GuidRecord>)
    requires records != [] && Sized(records) && Holds(b, off, GuidsBytes(records))
    ensures var n := |records| - 1;
            Holds(b, off, GuidsBytes(records[..n])) && Holds(b, off + GUID_SIZE * n, GuidBytes(records[n]))
  {
    var n := |records| - 1;
    var firsts, last := GuidsBytes(records[..n]), GuidBytes(records[n]);
    GuidsBytesLength(records[..n]);
    assert GuidsBytes(records) == firsts + last;
    HoldsConcat(b, off, firsts, last);
  }

  function GuidAt(b: seq<Byte>, i: nat): GuidRecord
    requires HEADER_SIZE + GUID_SIZE * i + GUID_SIZE <= |b|
  {
    var off := HEADER_SIZE + GUID_SIZE * i;
    GuidRecord(b[off..off + 16], U32At(b, off + 16), U32At(b, off + 20), U32At(b, off + 24))
  }

  lemma GuidHeld(b: seq<Byte>, i: nat, g: GuidRecord)
    requires |g.guid| == 16 && Holds(b, HEADER_SIZE + GUID_SIZE * i, GuidBytes(g))
    ensures HEADER_SIZE + GUID_SIZE * i + GUID_SIZE <= |b| && GuidAt(b, i) == g
  {
    var off := HEADER_SIZE + GUID_SIZE * i;
    HoldsConcat(b, off, g.guid + Le32(g.flags) + Le32(g.instanceCount), Le32(g.info));
    HoldsConcat(b, off, g.guid + Le32(g.flags), Le32(g.instanceCount));
    HoldsConcat(b, off, g.guid, Le32(g.flags));
    U32Held(b, off + 16, g.flags);
    U32Held(b, off + 20, g.instanceCount);
    U32Held(b, off + 24, g.info);
  }

  /** The parts of the block lie one behind the other, and the last one ends where the block does. */
  lemma {:induction false} BlockParts(b: seq<Byte>, r: Registration)
    requires Fits(r) && Holds(b, 0, Block(r))
    ensures Holds(b, 0, Header(r))
    ensures Holds(b, HEADER_SIZE, GuidsBytes(BlockRecords(r)))
    ensures Holds(b, NameOffset(r), Strings(r))
  {
    var header, records, strings := Header(r), GuidsBytes(BlockRecords(r)), Strings(r);
    assert |header| == HEADER_SIZE && |header| + |records| == NameOffset(r) by {
      BlockLength(r);
      GuidsBytesLength(BlockRecords(r));
    }
    ThreeParts(b, header, records, strings);
  }

  lemma {:induction false} ThreeParts(b: seq<Byte>, p: seq<Byte>, q: seq<Byte>, s: seq<Byte>)
    requires Holds(b, 0, p + q + s)
    ensures Holds(b, 0, p) && Holds(b, |p|, q) && Holds(b, |p| + |q|, s)
  {
    HoldsConcat(b, 0, p + q, s);
    HoldsConcat(b, 0, p, q);
  }

  lemma StringsHeld(b: seq<Byte>, r: Registration)
    requires Fits(r) && Holds(b, NameOffset(r), Strings(r))
    ensures !HasPdo(r) ==> Holds(b, NameOffset(r), Counted(Name(r)))
    ensures Holds(b, MofOffset(r), Counted(r.mof)) && Holds(b, RegPathOffset(r), Counted(RegPath(r)))
  {
    var name := if HasPdo(r) then [] else Counted(Name(r));
    HoldsConcat(b, NameOffset(r), name + Counted(r.mof), Counted(RegPath(r)));
    HoldsConcat(b, NameOffset(r), name, Counted(r.mof));
  }

  /** What a reader finds in a buffer that starts with the block: the strings where the header says they are. */
  lemma {:induction false} HeaderRoundTrip(b: seq<Byte>, r: Registration)
    requires Fits(r) && Holds(b, 0, Block(r))
    ensures U32At(b, 0) == Needed(r) == |Block(r)| && U32At(b, 4) == 0 && U32At(b, 16) == |r.guids|
    ensures StringAt(b, U32At(b, 8)) == Some(RegPath(r))
    ensures StringAt(b, U32At(b, 12)) == Some(r.mof)
    ensures !HasPdo(r) ==> StringAt(b, NameInfo(r)) == Some(Name(r))
    ensures Name(r) == (match r.name case Some(name) => name case None => [])
    ensures RegPath(r) == (match r.regPath case Some(path) => path case None => [])
  {
    BlockLength(r);
    BlockParts(b, r);
    HeaderHeld(b, r);
    StringsHeld(b, r);
    StringHeld(b, RegPathOffset(r), RegPath(r));
    StringHeld(b, MofOffset(r), r.mof);
    if !HasPdo(r) {
      StringHeld(b, NameOffset(r), Name(r));
    }
  }

  lemma {:induction false} GuidRoundTrip(b: seq<Byte>, r: Registration, i: nat)
    requires Fits(r) && i < |r.guids| && Holds(b, 0, Block(r))
    ensures HEADER_SIZE + GUID_SIZE * i + GUID_SIZE <= |b|
    ensures GuidAt(b, i) == Record(r.guids[i], NameFlags(r), NameInfo(r))
  {
    BlockParts(b, r);
    GuidsHeld(b, HEADER_SIZE, BlockRecords(r), i);
    GuidHeld(b, i, BlockRecords(r)[i]);
  }

  /** The flags that a GUID is registered with: its own, those of the names, and a list if they say nothing else. */
  function RegisteredFlags(r: Registration, flags: bv32): bv32 {
    flags | (r.nameFlags | (if r.nameFlags & 0x28 == 0 then 0x4 else 0))
  }

  lemma NoneOfTwo(n: bv32)
    ensures n & 0x28 == 0 <==> n & 0x20 == 0 && n & 0x8 == 0
  {
  }

  lemma OrNothing(n: bv32)
    ensures n | 0 == n
  {
  }

  lemma NamesOf(n: bv32, pdo: bool, base: bool)
    requires pdo == (n & 0x20 != 0) && base == (n & 0x8 != 0)
    ensures (if pdo || base then n else n | 0x4) == n | (if n & 0x28 == 0 then 0x4 else 0)
  {
    NoneOfTwo(n);
    OrNothing(n);
  }

  lemma {:induction false} NamesOwn(r: Registration)
    ensures NameFlags(r) == r.nameFlags | (if r.nameFlags & 0x28 == 0 then 0x4 else 0)
  {
    NamesOf(r.nameFlags, HasPdo(r), r.nameFlags & FLAG_BASENAME != 0);
  }

  /** The name is written unless there is a device object and no flag that speaks of names. */
  lemma {:induction false} WritesNameExactly(r: Registration)
    ensures WritesName(r) <==> r.nameFlags & 0x20 == 0 || r.nameFlags & 0xC != 0
  {
    ListOrBase(r.nameFlags);
  }

  lemma ListOrBase(n: bv32)
    ensures (n | 0x4) & 0xC != 0 && (n & 0x8 != 0 ==> n & 0xC != 0)
  {
  }

  lemma {:induction false} RecordIs(r: Registration, i: nat)
    requires Fits(r) && i < |r.guids|
    ensures var record := Record(r.guids[i], NameFlags(r), NameInfo(r));
            && record.guid == r.guids[i].guid && record.instanceCount == r.guids[i].instanceCount
            && record.flags == RegisteredFlags(r, r.guids[i].flags) as int
            && record.info == if r.nameFlags & 0x20 != 0 then r.pdo else 20 + 28 * |r.guids|
  {
    NamesOwn(r);
  }

  /** What a reader finds in record i, by the fields of the registration. */
  lemma {:induction false} GuidFields(b: seq<Byte>, r: Registration, i: nat)
    requires Fits(r) && i < |r.guids| && Holds(b, 0, Block(r))
    ensures 20 + 28 * i + 28 <= |b|
    ensures b[20 + 28 * i..20 + 28 * i + 16] == r.guids[i].guid
    ensures U32At(b, 20 + 28 * i + 16) == RegisteredFlags(r, r.guids[i].flags) as int
    ensures U32At(b, 20 + 28 * i + 20) == r.guids[i].instanceCount
    ensures U32At(b, 20 + 28 * i + 24) == if r.nameFlags & 0x20 != 0 then r.pdo else 20 + 28 * |r.guids|
  {
    GuidRoundTrip(b, r, i);
    RecordIs(r, i);
  }

  /** Numbers stand with their lowest byte first. */
  lemma {:induction false} LowestByteFirst(x: U32)
    ensures var s := Le32(x);
            s[0] == x % 256 && s[1] == x / 256 % 256 && s[2] == x / 0x1_0000 % 256 && s[3] == x / 0x100_0000
  {
  }

  /** A buffer determines what was written to it: the same records and strings, if it starts with two blocks. */
  lemma {:induction false} RoundTrip(b: seq<Byte>, r: Registration, r': Registration)
    requires Fits(r) && Fits(r') && Holds(b, 0, Block(r)) && Holds(b, 0, Block(r'))
    ensures BlockRecords(r) == BlockRecords(r') && r.mof == r'.mof && RegPath(r) == RegPath(r')
    ensures !HasPdo(r) && !HasPdo(r') ==> Name(r) == Name(r')
  {
    HeaderRoundTrip(b, r);
    HeaderRoundTrip(b, r');
    SameRecords(b, r, r');
  }

  lemma {:induction false} SameRecords(b: seq<Byte>, r: Registration, r': Registration)
    requires Fits(r) && Fits(r') && Holds(b, 0, Block(r)) && Holds(b, 0, Block(r')) && |r.guids| == |r'.guids|
    ensures BlockRecords(r) == BlockRecords(r')
  {
    var s, s' := BlockRecords(r), BlockRecords(r');
    forall i | 0 <= i < |s|
      ensures s[i] == s'[i]
    {
      GuidRoundTrip(b, r, i);
      GuidRoundTrip(b, r', i);
    }
  }

  // ---- Writing the block

  /** The bytes from an index on are as they were. */
  twostate predicate KeptFrom(a: array<Byte>, from: nat)
    reads a
  {
    forall k :: from <= k < a.Length ==> a[k] == old(a[k])
  }

  /** RtlCopyMemory. */
  method CopyBytes(a: array<Byte>, off: nat, p: seq<Byte>)
    requires off + |p| <= a.Length
    modifies a
    ensures Holds(a[..], off, p)
    ensures a[..off] == old(a[..off]) && KeptFrom(a, off + |p|)
  {
    var i := 0;
    while i < |p|
      invariant 0 <= i <= |p|
      invariant a[off..off + i] == p[..i]
      invariant a[..off] == old(a[..off]) && KeptFrom(a, off + |p|)
    {
      a[off + i] := p[i];
      i := i + 1;
    }
    assert a[..][off..off + |p|] == a[off..off + |p|];
  }

  /** Write p behind what the buffer starts with. */
  method Append(a: array<Byte>, ghost front: seq<Byte>, off: nat, p: seq<Byte>)
    requires off == |front| && off + |p| <= a.Length && Holds(a[..], 0, front)
    modifies a
    ensures Holds(a[..], 0, front + p)
    ensures KeptFrom(a, off + |p|)
  {
    CopyBytes(a, off, p);
    assert a[..][0..off] == a[..off];
    HoldsConcat(a[..], 0, front, p);
  }

  method WriteHeader(a: array<Byte>, r: Registration)
    requires Fits(r) && Needed(r) <= a.Length
    modifies a
    ensures Holds(a[..], 0, Header(r)) && KeptFrom(a, HEADER_SIZE)
  {
    ghost var front := Le32(Needed(r));
    Append(a, [], 0, Le32(Needed(r)));
    Append(a, front, 4, Le32(0));
    front := front + Le32(0);
    Append(a, front, 8, Le32(RegPathOffset(r)));
    front := front + Le32(RegPathOffset(r));
    Append(a, front, 12, Le32(MofOffset(r)));
    front := front + Le32(MofOffset(r));
    Append(a, front, 16, Le32(|r.guids|));
  }

  lemma FourParts(front: seq<Byte>, a: seq<Byte>, b: seq<Byte>, c: seq<Byte>, d: seq<Byte>)
    ensures front + (a + b + c + d) == front + a + b + c + d
  {
  }

  method WriteGuid(a: array<Byte>, ghost front: seq<Byte>, off: nat, g: GuidRecord)
    requires off == |front| && off + GUID_SIZE <= a.Length && Holds(a[..], 0, front) && |g.guid| == 16
    modifies a
    ensures Holds(a[..], 0, front + GuidBytes(g))
    ensures KeptFrom(a, off + GUID_SIZE)
  {
    Append(a, front, off, g.guid);
    ghost var done := front + g.guid;
    Append(a, done, off + 16, Le32(g.flags));
    done := done + Le32(g.flags);
    Append(a, done, off + 20, Le32(g.instanceCount));
    done := done + Le32(g.instanceCount);
    Append(a, done, off + 24, Le32(g.info));
    FourParts(front, g.guid, Le32(g.flags), Le32(g.instanceCount), Le32(g.info));
  }

  /** One record for each GUID; the device object is referenced for each if asked to. */
  method WriteGuids(a: array<Byte>, r: Registration, addRef: bool) returns (refs: nat)
    requires Fits(r) && Needed(r) <= a.Length && Holds(a[..], 0, Header(r))
    modifies a
    ensures Holds(a[..], 0, Header(r) + GuidsBytes(BlockRecords(r)))
    ensures KeptFrom(a, NameOffset(r))
    ensures refs == if addRef then |r.guids| else 0
  {
    var i := 0;
    refs := 0;
    ghost var records := BlockRecords(r);
    assert Header(r) + GuidsBytes(records[..0]) == Header(r);
    while i < |r.guids|
      invariant 0 <= i <= |r.guids|
      invariant Holds(a[..], 0, Header(r) + GuidsBytes(records[..i]))
      invariant KeptFrom(a, NameOffset(r))
      invariant refs == if addRef then i else 0
    {
      WriteRecord(a, Header(r), records, i, Record(r.guids[i], NameFlags(r), NameInfo(r)));
      if addRef {
        refs := refs + 1;
      }
      i := i + 1;
    }
    assert records[..i] == records;
  }

  method WriteRecord(a: array<Byte>, ghost header: seq<Byte>, ghost records: seq<GuidRecord>,
                     i: nat, record: GuidRecord)
    requires i < |records| && Sized(records) && record == records[i]
    requires |header| == HEADER_SIZE && HEADER_SIZE + GUID_SIZE * i + GUID_SIZE <= a.Length
    requires Holds(a[..], 0, header + GuidsBytes(records[..i]))
    modifies a
    ensures Holds(a[..], 0, header + GuidsBytes(records[..i + 1]))
    ensures KeptFrom(a, HEADER_SIZE + GUID_SIZE * i + GUID_SIZE)
  {
    GuidsBytesLength(records[..i]);
    NextGuid(header, records, i);
    WriteGuid(a, header + GuidsBytes(records[..i]), HEADER_SIZE + GUID_SIZE * i, record);
  }

  lemma NextGuid(front: seq<Byte>, records: seq<GuidRecord>, i: nat)
    requires i < |records|
    ensures front + GuidsBytes(records[..i + 1]) == front + GuidsBytes(records[..i]) + GuidBytes(records[i])
  {
    assert records[..i + 1][..i] == records[..i];
  }

  method AppendCounted(a: array<Byte>, ghost front: seq<Byte>, off: nat, s: seq<Byte>)
    requires |s| < 0x10000
    requires off == |front| && off + 2 + |s| <= a.Length && Holds(a[..], 0, front)
    modifies a
    ensures Holds(a[..], 0, front + Counted(s))
    ensures KeptFrom(a, off + 2 + |s|)
  {
    Append(a, front, off, Le16(|s|));
    Append(a, front + Le16(|s|), off + 2, s);
    assert front + Le16(|s|) + s == front + Counted(s);
  }

  /** The name is written, but the block has no room for it, and the other strings do not cover it. */
  predicate Spills(r: Registration) {
    WritesName(r) && NameOffset(r) + 2 + |Name(r)| > Needed(r)
  }

  /** That takes the PDO flag together with a name flag, and a name longer than the other two strings by more than 2. */
  lemma SpillsExactly(r: Registration)
    ensures !HasPdo(r) ==> WritesName(r)
    ensures Spills(r) <==> HasPdo(r) && WritesName(r) && |Name(r)| > |r.mof| + |RegPath(r)| + 2
  {
  }

  /** What a spilt name leaves behind the block: its own tail. */
  ghost predicate HoldsTail(b: seq<Byte>, r: Registration)
    requires |Name(r)| < 0x10000
  {
    forall k :: Needed(r) <= k < NameOffset(r) + 2 + |Name(r)| && k < |b|
                ==> b[k] == Counted(Name(r))[k - NameOffset(r)]
  }

  lemma {:induction false} TailOfName(b: seq<Byte>, front: seq<Byte>, r: Registration)
    requires |Name(r)| < 0x10000 && |front| == NameOffset(r) && Holds(b, 0, front + Counted(Name(r)))
    ensures HoldsTail(b, r)
  {
    var p := front + Counted(Name(r));
    forall k | Needed(r) <= k < NameOffset(r) + 2 + |Name(r)| && k < |b|
      ensures b[k] == Counted(Name(r))[k - NameOffset(r)]
    {
      assert b[k] == b[0..|p|][k];
    }
  }

  /** The strings, each at its offset; a name that is written although it has no room is overwritten by the others. */
  method WriteStrings(a: array<Byte>, ghost front: seq<Byte>, r: Registration)
    requires Fits(r) && Needed(r) <= a.Length && |front| == NameOffset(r) && Holds(a[..], 0, front)
    requires WritesName(r) ==> NameOffset(r) + 2 + |Name(r)| <= a.Length
    modifies a
    ensures Holds(a[..], 0, front + Strings(r))
    ensures if Spills(r) then HoldsTail(a[..], r) else KeptFrom(a, Needed(r))
    ensures Spills(r) ==> KeptFrom(a, NameOffset(r) + 2 + |Name(r)|)
  {
    SpillsExactly(r);
    ghost var done := front;
    if WritesName(r) {
      AppendCounted(a, front, NameOffset(r), Name(r));
      TailOfName(a[..], front, r);
      if HasPdo(r) {
        HoldsConcat(a[..], 0, front, Counted(Name(r)));
      } else {
        done := front + Counted(Name(r));
      }
    }
    WriteLastStrings(a, front, done, r);
  }

  method WriteLastStrings(a: array<Byte>, ghost front: seq<Byte>, ghost done: seq<Byte>, r: Registration)
    requires Fits(r) && Needed(r) <= a.Length && |front| == NameOffset(r)
    requires done == (if HasPdo(r) then front else front + Counted(Name(r))) && Holds(a[..], 0, done)
    modifies a
    ensures Holds(a[..], 0, front + Strings(r))
    ensures KeptFrom(a, Needed(r))
  {
    AppendCounted(a, done, MofOffset(r), r.mof);
    AppendCounted(a, done + Counted(r.mof), RegPathOffset(r), RegPath(r));
    assert done + Counted(r.mof) + Counted(RegPath(r)) == front + Strings(r);
  }

  /** Where the furthest write to a buffer of a given size ends, once the callback has succeeded. */
  function WritesEnd(r: Registration, size: nat): nat {
    if Needed(r) > size then 4
    else if Spills(r) then NameOffset(r) + 2 + |Name(r)|
    else Needed(r)
  }

  /**
   * The answer to IRP_MN_REGINFO (and _EX, which references the device object for each GUID). The array is the
   * memory from the start of the buffer on, as far as it is written; the first size bytes of it are the buffer.
   * Exactly the bytes before WritesEnd are written: the block and the tail of a name that spills, or four bytes.
   */
  method Register(a: array<Byte>, size: nat, r: Registration, succeeded: bool, extended: bool)
    returns (ok: bool, retSize: nat, refs: nat)
    requires Fits(r) && size <= a.Length && WritesEnd(r, size) <= a.Length
    modifies a
    ensures ok <==> succeeded && (r.nameFlags & 0x20 != 0 || r.name.Some?)
    ensures !ok ==> retSize == 0 && refs == 0 && a[..] == old(a[..])
    ensures ok ==> KeptFrom(a, WritesEnd(r, size))
    ensures ok && Needed(r) <= size ==>
              && retSize == Needed(r) && Holds(a[..], 0, Block(r)) && (Spills(r) ==> HoldsTail(a[..], r))
              && refs == (if extended && HasPdo(r) then |r.guids| else 0)
    ensures ok && Needed(r) > size ==> retSize == 4 && refs == 0 && U32At(a[..], 0) == Needed(r)
  {
    if !succeeded || (r.nameFlags & FLAG_PDO == 0 && r.name.None?) {
      return false, 0, 0;
    }
    if Needed(r) <= size {
      WriteHeader(a, r);
      refs := WriteGuids(a, r, extended && HasPdo(r));
      BlockLength(r);
      WriteStrings(a, Header(r) + GuidsBytes(BlockRecords(r)), r);
      return true, Needed(r), refs;
    } else {
      CopyBytes(a, 0, Le32(Needed(r)));
      U32Held(a[..], 0, Needed(r));
      return true, 4, 0;
    }
  }

  /**
   * Every write lies inside the buffer exactly if the buffer holds a spilt name as well as the block, or, when it is
   * too small for the block, at least the four bytes that say so.
   */
  lemma WritesInsideExactly(r: Registration, size: nat)
    ensures WritesEnd(r, size) <= size
       <==> if Needed(r) > size then size >= 4
            else NameFitsBlock(r) || NameOffset(r) + 2 + |Name(r)| <= size
  {
    SpillsExactly(r);
  }

  /** No PDO flag together with a name flag, or a name that is no more than 2 longer than the other two strings. */
  predicate NameFitsBlock(r: Registration) {
    !(HasPdo(r) && WritesName(r)) || |Name(r)| <= |r.mof| + |RegPath(r)| + 2
  }

  /** A name of three bytes with the PDO and base-name flags ends one byte behind a buffer of the size needed. */
  lemma SpillHappens()
    ensures var r := Registration(FLAG_PDO | FLAG_BASENAME, Some([1, 2, 3]), None, [], 0, []);
            Needed(r) == 24 && WritesEnd(r, 24) == 25
  {
  }
}
