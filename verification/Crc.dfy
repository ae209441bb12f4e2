/** The 32-bit cyclic redundancy checks of `src/utils/checksum.c`, and the bit reversals of
    `include/rcsw/utils/utils.h`. */
module Crc {

  const POLYNOMIAL: bv32 := 0x04C11DB7
  const INITIAL: bv32 := 0xFFFF_FFFF

  // ----- Bit reversal -----

  /** `RCSW_REV8`: three multiplications on 64 bits. */
  function Rev8(v: bv8): bv8 {
    var w := v as bv64;
    ((((((w * 0x0802) & 0x22110) | ((w * 0x8020) & 0x88440)) * 0x10101) >> 16) & 0xFF) as bv8
  }

  /** `RCSW_REV16` and `RCSW_REV32`. */
  function Rev16(v: bv16): bv16 {
    ((Rev8((v & 0xFF) as bv8) as bv16) << 8) | (Rev8(((v >> 8) & 0xFF) as bv8) as bv16)
  }

  function Rev32(v: bv32): bv32 {
    ((Rev16((v & 0xFFFF) as bv16) as bv32) << 16) | (Rev16(((v >> 16) & 0xFFFF) as bv16) as bv32)
  }

  /** The reflection of a word about its centre: neighbours swap, then pairs, then nibbles. */
  function Mirror8(v: bv8): bv8 {
    var a := ((v & 0x55) << 1) | ((v >> 1) & 0x55);
    var b := ((a & 0x33) << 2) | ((a >> 2) & 0x33);
    (b << 4) | (b >> 4)
  }

  function Mirror32(v: bv32): bv32 {
    var a := ((v & 0x5555_5555) << 1) | ((v >> 1) & 0x5555_5555);
    var b := ((a & 0x3333_3333) << 2) | ((a >> 2) & 0x3333_3333);
    var c := ((b & 0x0F0F_0F0F) << 4) | ((b >> 4) & 0x0F0F_0F0F);
    var d := ((c & 0x00FF_00FF) << 8) | ((c >> 8) & 0x00FF_00FF);
    (d << 16) | (d >> 16)
  }

  lemma Rev8Mirrors(v: bv8)
    ensures Rev8(v) == Mirror8(v) && Mirror8(Mirror8(v)) == v
  {
  }

  lemma ReversedPolynomial()
    ensures Rev32(POLYNOMIAL) == 0xEDB8_8320 == Mirror32(POLYNOMIAL)
  {
  }

  // ----- Exclusive or -----

  function Xor(a: bv32, b: bv32): bv32 { a ^ b }
  function Not(a: bv32): bv32 { !a }
  function Word(b: bv8): bv32 { b as bv32 }

  lemma XorAssoc(x: bv32, y: bv32, z: bv32)
    ensures Xor(Xor(x, y), z) == Xor(x, Xor(y, z))
  {
  }

  lemma XorCommutes(x: bv32, y: bv32)
    ensures Xor(x, y) == Xor(y, x)
  {
  }

  lemma XorRegroup(x: bv32, y: bv32, f: bv32, g: bv32)
    ensures Xor(Xor(x, y), Xor(f, g)) == Xor(Xor(x, f), Xor(y, g))
  {
    hide Xor;
    XorAssoc(x, y, Xor(f, g));
    XorAssoc(y, f, g);
    XorCommutes(y, f);
    XorAssoc(f, y, g);
    XorAssoc(x, f, Xor(y, g));
  }

  // ----- One shift, lowest bit first -----

  const POLY: bv32 := 0xEDB8_8320

  function Half(c: bv32): bv32 { c >> 1 }
  function Feed(c: bv32): bv32 { if c & 1 == 1 then POLY else 0 }

  /** One turn of the inner loops. */
  function Shift(c: bv32): bv32 { Xor(Half(c), Feed(c)) }
  function Shift2(c: bv32): bv32 { Shift(Shift(c)) }
  function Shift4(c: bv32): bv32 { Shift2(Shift2(c)) }
  function Shift8(c: bv32): bv32 { Shift4(Shift4(c)) }

  function Mask(c: bv32): bv32 { POLY & (0 - (c & 1)) }

  lemma MaskIsFeed(c: bv32)
    ensures Mask(c) == Feed(c)
  {
    assert c & 1 == 0 || c & 1 == 1;
  }

  lemma XorZero(x: bv32)
    ensures Xor(x, 0) == x
  {
  }

  /** The two ways the source writes it: with a branch, and with a mask. */
  lemma ShiftForms(c: bv32)
    ensures (if c & 1 == 1 then Xor(Half(c), POLY) else Half(c)) == Shift(c)
    ensures Xor(Half(c), Mask(c)) == Shift(c)
  {
    hide Xor, Half, Mask;
    XorZero(Half(c));
    MaskIsFeed(c);
  }

  lemma HalfXor(a: bv32, b: bv32)
    ensures Half(Xor(a, b)) == Xor(Half(a), Half(b))
  {
  }

  lemma FeedXor(a: bv32, b: bv32)
    ensures Feed(Xor(a, b)) == Xor(Feed(a), Feed(b))
  {
    assert (Xor(a, b) & 1 == 1) <==> ((a & 1 == 1) != (b & 1 == 1));
  }

  /** Shifting is linear over exclusive or. */
  lemma ShiftLinear(a: bv32, b: bv32)
    ensures Shift(Xor(a, b)) == Xor(Shift(a), Shift(b))
  {
    hide Xor, Half, Feed;
    HalfXor(a, b);
    FeedXor(a, b);
    XorRegroup(Half(a), Half(b), Feed(a), Feed(b));
  }

  lemma Shift2Linear(a: bv32, b: bv32)
    ensures Shift2(Xor(a, b)) == Xor(Shift2(a), Shift2(b))
  {
    hide Xor, Shift;
    ShiftLinear(a, b);
    ShiftLinear(Shift(a), Shift(b));
  }

  lemma Shift8Linear(a: bv32, b: bv32)
    ensures Shift8(Xor(a, b)) == Xor(Shift8(a), Shift8(b))
  {
    hide Xor, Shift2;
    var a2, b2 := Shift2(a), Shift2(b);
    var a4, b4 := Shift2(a2), Shift2(b2);
    var a6, b6 := Shift2(a4), Shift2(b4);
    Shift2Linear(a, b);
    Shift2Linear(a2, b2);
    Shift2Linear(a4, b4);
    Shift2Linear(a6, b6);
  }

  function High(c: bv32): bv32 { c & 0xFFFF_FF00 }
  function Low(c: bv32): bv32 { c & 0xFF }
  function Down8(c: bv32): bv32 { c >> 8 }

  /** The bits above the low byte only move down. */
  lemma HighBits(c: bv32)
    ensures Shift8(High(c)) == Down8(c) && c == Xor(High(c), Low(c))
  {
  }

  /** The table entry of the low byte stands for eight shifts. */
  lemma TableStep(c: bv32, byte: bv8)
    ensures Shift8(Xor(c, Word(byte))) == Xor(Down8(c), Shift8(Xor(Low(c), Word(byte))))
  {
    hide Xor, Shift8, High, Low, Down8, Word;
    HighBits(c);
    XorAssoc(High(c), Low(c), Word(byte));
    Shift8Linear(High(c), Xor(Low(c), Word(byte)));
  }

  // ----- Whole buffers -----

  /** The remainder after the bytes of `s`, from `crc` on. */
  function Remainder(crc: bv32, s: seq<bv8>): bv32 {
    if s == [] then crc else Shift8(Xor(Remainder(crc, s[..|s| - 1]), Word(s[|s| - 1])))
  }

  lemma {:induction false} RemainderConcat(crc: bv32, a: seq<bv8>, b: seq<bv8>)
    ensures Remainder(crc, a + b) == Remainder(Remainder(crc, a), b)
  {
    hide Shift8, Xor, Word;
    if b == [] {
      assert a + b == a;
    } else {
      assert (a + b)[..|a + b| - 1] == a + b[..|b| - 1];
      RemainderConcat(crc, a, b[..|b| - 1]);
    }
  }

  lemma RemainderNext(crc: bv32, s: seq<bv8>, i: nat)
    requires i < |s|
    ensures Remainder(crc, s[..i + 1]) == Shift8(Xor(Remainder(crc, s[..i]), Word(s[i])))
  {
    hide Shift8, Xor, Word;
    assert s[..i + 1][..i] == s[..i];
  }

  // ----- The check as IEEE 802.3 clause 3.2.9 has it: highest bit first -----

  function Double(r: bv32): bv32 { r << 1 }
  function FeedTop(r: bv32): bv32 { if r & 0x8000_0000 != 0 then POLYNOMIAL else 0 }
  function ShiftUp(r: bv32): bv32 { Xor(Double(r), FeedTop(r)) }
  function ShiftUp8(r: bv32): bv32 {
    ShiftUp(ShiftUp(ShiftUp(ShiftUp(ShiftUp(ShiftUp(ShiftUp(ShiftUp(r))))))))
  }

  function Top(b: bv8): bv32 { (Mirror8(b) as bv32) << 24 }

  /** Each byte reflected on input, the polynomial as the standard writes it. */
  function Standard(s: seq<bv8>): bv32 {
    if s == [] then INITIAL else ShiftUp8(Xor(Standard(s[..|s| - 1]), Top(s[|s| - 1])))
  }

  lemma MirrorXor(a: bv32, b: bv32)
    ensures Mirror32(Xor(a, b)) == Xor(Mirror32(a), Mirror32(b))
  {
  }

  lemma MirrorShiftLeft(r: bv32)
    ensures Mirror32(r << 1) == Mirror32(r) >> 1
  {
  }

  lemma MirrorDouble(r: bv32)
    ensures Mirror32(Double(r)) == Half(Mirror32(r))
  {
    hide Mirror32;
    MirrorShiftLeft(r);
  }

  lemma MirrorFeed(r: bv32)
    ensures Mirror32(FeedTop(r)) == Feed(Mirror32(r))
  {
    assert (Mirror32(r) & 1 == 1) <==> r & 0x8000_0000 != 0;
    assert Mirror32(POLYNOMIAL) == POLY && Mirror32(0) == 0;
  }

  lemma MirrorTop(b: bv8)
    ensures Mirror32(Top(b)) == Word(b)
  {
  }

  /** Shifting up the mirror image is shifting down. */
  lemma MirrorShift(r: bv32)
    ensures Mirror32(ShiftUp(r)) == Shift(Mirror32(r))
  {
    hide Xor, Half, Feed, Double, FeedTop, Mirror32;
    MirrorXor(Double(r), FeedTop(r));
    MirrorDouble(r);
    MirrorFeed(r);
  }

  lemma MirrorShift8(r: bv32)
    ensures Mirror32(ShiftUp8(r)) == Shift8(Mirror32(r))
  {
    hide Shift, ShiftUp, Mirror32;
    var r1 := ShiftUp(r);
    var r2 := ShiftUp(r1);
    var r3 := ShiftUp(r2);
    var r4 := ShiftUp(r3);
    var r5 := ShiftUp(r4);
    var r6 := ShiftUp(r5);
    MirrorShift(r);
    MirrorShift(r1);
    MirrorShift(r2);
    MirrorShift(r3);
    MirrorShift(r4);
    MirrorShift(r5);
    MirrorShift(r6);
    MirrorShift(ShiftUp(r6));
  }

  /** The remainder of the source is the mirror image of the standard's. */
  lemma {:induction false} RemainderStandard(s: seq<bv8>)
    ensures Remainder(INITIAL, s) == Mirror32(Standard(s))
  {
    if s != [] {
      hide Shift8, ShiftUp8, Xor, Word, Top, Mirror32;
      var init, last := s[..|s| - 1], s[|s| - 1];
      RemainderStandard(init);
      MirrorShift8(Xor(Standard(init), Top(last)));
      MirrorXor(Standard(init), Top(last));
      MirrorTop(last);
    } else {
      assert Mirror32(INITIAL) == INITIAL;
    }
  }

  // ----- The programs -----

  const INT_MAX: int := 0x7fff_ffff
  const TWO_32 := 0x1_0000_0000

  /** How many bytes the loop of `crc32_eth` sees: it compares with the length cast to an `int`,
      which wraps around. */
  function Counted(n: nat): (k: nat)
    ensures k <= n && k <= INT_MAX
    ensures k == n <==> n <= INT_MAX
    ensures if k > 0 then (n - k) % TWO_32 == 0 else n % TWO_32 == 0 || n % TWO_32 > INT_MAX
  {
    if n % TWO_32 <= INT_MAX then n % TWO_32 else 0
  }

  method ShiftBranch(c: bv32) returns (r: bv32)
    ensures r == Shift(c)
  {
    if c & 1 == 1 {
      r := (c >> 1) ^ POLY;
      assert r == Xor(Half(c), POLY);
    } else {
      r := c >> 1;
      assert r == Half(c);
    }
    ShiftForms(c);
  }

  method ShiftMask(c: bv32) returns (r: bv32)
    ensures r == Shift(c)
  {
    var mask := 0 - (c & 1);
    r := (c >> 1) ^ (POLY & mask);
    assert r == Xor(Half(c), Mask(c));
    ShiftForms(c);
  }

  /** An error, or the complement of the remainder. */
  function Checked(s: seq<bv8>, counted: nat): bv32
    requires counted <= |s|
  {
    if s == [] then 0xFFFF_FFFF else Not(Remainder(INITIAL, s[..counted]))
  }

  /** `crc32_eth`: bit by bit. */
  method Eth(buf: array<bv8>) returns (r: bv32)
    ensures r == Checked(buf[..], Counted(buf.Length))
  {
    hide Xor, Shift;
    if buf.Length == 0 {
      return 0xFFFF_FFFF;
    }
    var crc, i := INITIAL, 0;
    while i < Counted(buf.Length)
      invariant 0 <= i <= Counted(buf.Length) && crc == Remainder(INITIAL, buf[..][..i])
    {
      RemainderNext(INITIAL, buf[..], i);
      crc := ByteStep(crc, buf[i]);
      i := i + 1;
    }
    return Not(crc);
  }

  function Shifts(c: bv32, k: nat): bv32 {
    if k == 0 then c else Shift(Shifts(c, k - 1))
  }

  lemma EightShifts(c: bv32)
    ensures Shifts(c, 8) == Shift8(c)
  {
    hide Shift;
    assert Shifts(c, 1) == Shift(Shifts(c, 0));
    assert Shifts(c, 3) == Shift(Shifts(c, 2)) && Shifts(c, 4) == Shift(Shifts(c, 3));
    assert Shifts(c, 6) == Shift(Shifts(c, 5)) && Shifts(c, 5) == Shift(Shifts(c, 4));
  }

  /** The loop over the bits of one byte. */
  method ByteStep(crc: bv32, byte: bv8) returns (c: bv32)
    ensures c == Shift8(Xor(crc, Word(byte)))
  {
    hide Shift, Shift8;
    c := crc ^ (byte as bv32);
    ghost var start := Xor(crc, Word(byte));
    assert c == start;
    var j := 7;
    while j >= 0
      invariant -1 <= j <= 7 && c == Shifts(start, 7 - j)
    {
      c := ShiftMask(c);
      j := j - 1;
    }
    EightShifts(start);
  }

  /** What the table holds for one byte. */
  function Entry(b: bv8): bv32 { Shift8(Word(b)) }

  lemma EntryOfOne()
    ensures Entry(1) == 0x7707_3096
  {
  }

  lemma ByteAgain(b: bv8)
    ensures 0 <= b as int < 256 && ((b as int) as bv8) == b
  {
  }

  lemma ByteWord(b: nat)
    requires b < 256
    ensures (b as bv8) as bv32 == b as bv32 && (b as bv8) as int == b
  {
  }

  /** The lookup table, which starts as zeroes. */
  class Table {
    const entries: array<bv32>

    ghost predicate Ready()
      reads entries
    {
      entries.Length == 256 && forall b: bv8 :: entries[b as int] == Entry(b)
    }

    ghost predicate Valid()
      reads entries
    {
      entries.Length == 256 && (Ready() || forall i :: 0 <= i < 256 ==> entries[i] == 0)
    }

    constructor ()
      ensures Valid() && fresh(entries)
    {
      entries := new bv32[256](i => 0);
    }

    /** One turn of the outer loop of `crc32_ethl_init`. */
    method Fill(b: nat)
      requires entries.Length == 256 && b < 256
      modifies entries
      ensures entries[..] == old(entries[..])[b := Entry(b as bv8)]
    {
      hide Shift, Shift8;
      var remainder := b as bv32;
      ByteWord(b);
      var bit := 8;
      while bit > 0
        invariant 0 <= bit <= 8 && remainder == Shifts(Word(b as bv8), 8 - bit)
        invariant entries[..] == old(entries[..])
      {
        remainder := ShiftBranch(remainder);
        bit := bit - 1;
      }
      EightShifts(Word(b as bv8));
      entries[b] := remainder;
    }

    /** `crc32_ethl_init`: the counter is a byte and wraps around after the last. */
    method Init()
      requires entries.Length == 256
      modifies entries
      ensures Ready()
    {
      hide Entry;
      var b, wrapped := 0, false;
      while !wrapped
        invariant 0 <= b < 256 && (wrapped ==> b == 0)
        invariant forall x: bv8 :: wrapped || (x as int) < b ==> entries[x as int] == Entry(x)
        decreases !wrapped, 256 - b
      {
        Fill(b);
        forall x: bv8 | (x as int) <= b ensures entries[x as int] == Entry(x) {
          ByteAgain(x);
        }
        b := (b + 1) % 256;
        wrapped := b == 0;
      }
    }

    /** `crc32_ethl`: byte by byte through the table, which is built on first use. */
    method Ethl(buf: array<bv8>) returns (r: bv32)
      requires Valid()
      modifies entries
      ensures Valid() && (buf.Length > 0 ==> Ready())
      ensures r == Checked(buf[..], buf.Length)
    {
      hide Entry, Shift8, Xor;
      if buf.Length == 0 {
        return 0xFFFF_FFFF;
      }
      EntryOfOne();
      ByteWord(1);
      if entries[1] == 0 {
        Init();
      }
      var crc, i := INITIAL, 0;
      while i < buf.Length
        invariant 0 <= i <= buf.Length && crc == Remainder(INITIAL, buf[..][..i]) && Ready()
      {
        RemainderNext(INITIAL, buf[..], i);
        crc := Lookup(crc, buf[i], entries);
        i := i + 1;
      }
      return Not(crc);
    }

    /** One entry of the table. */
    static method Fetch(entries: array<bv32>, index: bv8) returns (e: bv32)
      requires entries.Length == 256 && forall b: bv8 :: entries[b as int] == Entry(b)
      ensures e == Entry(index)
    {
      hide Entry;
      e := entries[index as int];
    }

    /** One step through the table. */
    static method Lookup(crc: bv32, byte: bv8, entries: array<bv32>) returns (c: bv32)
      requires entries.Length == 256 && forall b: bv8 :: entries[b as int] == Entry(b)
      ensures c == Shift8(Xor(crc, Word(byte)))
    {
      hide Shift8, Entry, Xor, Down8, Low, Word;
      var index := TableSlot(crc, byte);
      var e := Fetch(entries, index);
      EntryWord(index);
      TableStep(crc, byte);
      c := Combined(crc, e);
    }
  }

  method TableSlot(crc: bv32, byte: bv8) returns (index: bv8)
    ensures Word(index) == Xor(Low(crc), Word(byte))
  {
    index := ((crc & 0xFF) as bv8) ^ byte;
    IndexWord(crc, byte);
  }

  method Combined(crc: bv32, e: bv32) returns (c: bv32)
    ensures c == Xor(Down8(crc), e)
  {
    c := (crc >> 8) ^ e;
  }

  lemma EntryWord(b: bv8)
    ensures Entry(b) == Shift8(Word(b))
  {
  }

  lemma IndexWord(crc: bv32, byte: bv8)
    ensures Word(((crc & 0xFF) as bv8) ^ byte) == Xor(Low(crc), Word(byte))
  {
  }

  // ----- The precomputed table -----

  /** Entry `j` of a row. */
  function Pick(j: bv8, a0: bv32, a1: bv32, a2: bv32, a3: bv32, a4: bv32, a5: bv32, a6: bv32, a7: bv32,
                b0: bv32, b1: bv32, b2: bv32, b3: bv32, b4: bv32, b5: bv32, b6: bv32, b7: bv32): bv32
  {
    if j < 8 then
      if j < 4 then if j < 2 then if j == 0 then a0 else a1 else if j == 2 then a2 else a3
      else if j < 6 then if j == 4 then a4 else a5 else if j == 6 then a6 else a7
    else
      if j < 12 then if j < 10 then if j == 8 then b0 else b1 else if j == 10 then b2 else b3
      else if j < 14 then if j == 12 then b4 else b5 else if j == 14 then b6 else b7
  }

  /** `crc32_brown_table`, sixteen entries to a row. */
  function BrownEntry(i: bv8, j: bv8): bv32 {
    match i
    case 0 => Pick(j,
      0x0000_0000, 0x7707_3096, 0xEE0E_612C, 0x9909_51BA, 0x076D_C419, 0x706A_F48F, 0xE963_A535, 0x9E64_95A3,
      0x0EDB_8832, 0x79DC_B8A4, 0xE0D5_E91E, 0x97D2_D988, 0x09B6_4C2B, 0x7EB1_7CBD, 0xE7B8_2D07, 0x90BF_1D91)
    case 1 => Pick(j,
      0x1DB7_1064, 0x6AB0_20F2, 0xF3B9_7148, 0x84BE_41DE, 0x1ADA_D47D, 0x6DDD_E4EB, 0xF4D4_B551, 0x83D3_85C7,
      0x136C_9856, 0x646B_A8C0, 0xFD62_F97A, 0x8A65_C9EC, 0x1401_5C4F, 0x6306_6CD9, 0xFA0F_3D63, 0x8D08_0DF5)
    case 2 => Pick(j,
      0x3B6E_20C8, 0x4C69_105E, 0xD560_41E4, 0xA267_7172, 0x3C03_E4D1, 0x4B04_D447, 0xD20D_85FD, 0xA50A_B56B,
      0x35B5_A8FA, 0x42B2_986C, 0xDBBB_C9D6, 0xACBC_F940, 0x32D8_6CE3, 0x45DF_5C75, 0xDCD6_0DCF, 0xABD1_3D59)
    case 3 => Pick(j,
      0x26D9_30AC, 0x51DE_003A, 0xC8D7_5180, 0xBFD0_6116, 0x21B4_F4B5, 0x56B3_C423, 0xCFBA_9599, 0xB8BD_A50F,
      0x2802_B89E, 0x5F05_8808, 0xC60C_D9B2, 0xB10B_E924, 0x2F6F_7C87, 0x5868_4C11, 0xC161_1DAB, 0xB666_2D3D)
    case 4 => Pick(j,
      0x76DC_4190, 0x01DB_7106, 0x98D2_20BC, 0xEFD5_102A, 0x71B1_8589, 0x06B6_B51F, 0x9FBF_E4A5, 0xE8B8_D433,
      0x7807_C9A2, 0x0F00_F934, 0x9609_A88E, 0xE10E_9818, 0x7F6A_0DBB, 0x086D_3D2D, 0x9164_6C97, 0xE663_5C01)
    case 5 => Pick(j,
      0x6B6B_51F4, 0x1C6C_6162, 0x8565_30D8, 0xF262_004E, 0x6C06_95ED, 0x1B01_A57B, 0x8208_F4C1, 0xF50F_C457,
      0x65B0_D9C6, 0x12B7_E950, 0x8BBE_B8EA, 0xFCB9_887C, 0x62DD_1DDF, 0x15DA_2D49, 0x8CD3_7CF3, 0xFBD4_4C65)
    case 6 => Pick(j,
      0x4DB2_6158, 0x3AB5_51CE, 0xA3BC_0074, 0xD4BB_30E2, 0x4ADF_A541, 0x3DD8_95D7, 0xA4D1_C46D, 0xD3D6_F4FB,
      0x4369_E96A, 0x346E_D9FC, 0xAD67_8846, 0xDA60_B8D0, 0x4404_2D73, 0x3303_1DE5, 0xAA0A_4C5F, 0xDD0D_7CC9)
    case 7 => Pick(j,
      0x5005_713C, 0x2702_41AA, 0xBE0B_1010, 0xC90C_2086, 0x5768_B525, 0x206F_85B3, 0xB966_D409, 0xCE61_E49F,
      0x5EDE_F90E, 0x29D9_C998, 0xB0D0_9822, 0xC7D7_A8B4, 0x59B3_3D17, 0x2EB4_0D81, 0xB7BD_5C3B, 0xC0BA_6CAD)
    case 8 => Pick(j,
      0xEDB8_8320, 0x9ABF_B3B6, 0x03B6_E20C, 0x74B1_D29A, 0xEAD5_4739, 0x9DD2_77AF, 0x04DB_2615, 0x73DC_1683,
      0xE363_0B12, 0x9464_3B84, 0x0D6D_6A3E, 0x7A6A_5AA8, 0xE40E_CF0B, 0x9309_FF9D, 0x0A00_AE27, 0x7D07_9EB1)
    case 9 => Pick(j,
      0xF00F_9344, 0x8708_A3D2, 0x1E01_F268, 0x6906_C2FE, 0xF762_575D, 0x8065_67CB, 0x196C_3671, 0x6E6B_06E7,
      0xFED4_1B76, 0x89D3_2BE0, 0x10DA_7A5A, 0x67DD_4ACC, 0xF9B9_DF6F, 0x8EBE_EFF9, 0x17B7_BE43, 0x60B0_8ED5)
    case 10 => Pick(j,
      0xD6D6_A3E8, 0xA1D1_937E, 0x38D8_C2C4, 0x4FDF_F252, 0xD1BB_67F1, 0xA6BC_5767, 0x3FB5_06DD, 0x48B2_364B,
      0xD80D_2BDA, 0xAF0A_1B4C, 0x3603_4AF6, 0x4104_7A60, 0xDF60_EFC3, 0xA867_DF55, 0x316E_8EEF, 0x4669_BE79)
    case 11 => Pick(j,
      0xCB61_B38C, 0xBC66_831A, 0x256F_D2A0, 0x5268_E236, 0xCC0C_7795, 0xBB0B_4703, 0x2202_16B9, 0x5505_262F,
      0xC5BA_3BBE, 0xB2BD_0B28, 0x2BB4_5A92, 0x5CB3_6A04, 0xC2D7_FFA7, 0xB5D0_CF31, 0x2CD9_9E8B, 0x5BDE_AE1D)
    case 12 => Pick(j,
      0x9B64_C2B0, 0xEC63_F226, 0x756A_A39C, 0x026D_930A, 0x9C09_06A9, 0xEB0E_363F, 0x7207_6785, 0x0500_5713,
      0x95BF_4A82, 0xE2B8_7A14, 0x7BB1_2BAE, 0x0CB6_1B38, 0x92D2_8E9B, 0xE5D5_BE0D, 0x7CDC_EFB7, 0x0BDB_DF21)
    case 13 => Pick(j,
      0x86D3_D2D4, 0xF1D4_E242, 0x68DD_B3F8, 0x1FDA_836E, 0x81BE_16CD, 0xF6B9_265B, 0x6FB0_77E1, 0x18B7_4777,
      0x8808_5AE6, 0xFF0F_6A70, 0x6606_3BCA, 0x1101_0B5C, 0x8F65_9EFF, 0xF862_AE69, 0x616B_FFD3, 0x166C_CF45)
    case 14 => Pick(j,
      0xA00A_E278, 0xD70D_D2EE, 0x4E04_8354, 0x3903_B3C2, 0xA767_2661, 0xD060_16F7, 0x4969_474D, 0x3E6E_77DB,
      0xAED1_6A4A, 0xD9D6_5ADC, 0x40DF_0B66, 0x37D8_3BF0, 0xA9BC_AE53, 0xDEBB_9EC5, 0x47B2_CF7F, 0x30B5_FFE9)
    case _ => Pick(j,
      0xBDBD_F21C, 0xCABA_C28A, 0x53B3_9330, 0x24B4_A3A6, 0xBAD0_3605, 0xCDD7_0693, 0x54DE_5729, 0x23D9_67BF,
      0xB366_7A2E, 0xC461_4AB8, 0x5D68_1B02, 0x2A6F_2B94, 0xB40B_BE37, 0xC30C_8EA1, 0x5A05_DF1B, 0x2D02_EF8D)
  }

  function BrownAt(b: bv8): bv32 { BrownEntry(b >> 4, b & 0xF) }

  function FirstRow(j: bv8): bv32 { BrownEntry(0, j) }

  /** The first row, with `c` added to every entry. */
  function RowFrom(c: bv32, j: bv8): bv32 {
    Pick(j,
        Xor(c, 0x0000_0000), Xor(c, 0x7707_3096), Xor(c, 0xEE0E_612C), Xor(c, 0x9909_51BA),
        Xor(c, 0x076D_C419), Xor(c, 0x706A_F48F), Xor(c, 0xE963_A535), Xor(c, 0x9E64_95A3),
        Xor(c, 0x0EDB_8832), Xor(c, 0x79DC_B8A4), Xor(c, 0xE0D5_E91E), Xor(c, 0x97D2_D988),
        Xor(c, 0x09B6_4C2B), Xor(c, 0x7EB1_7CBD), Xor(c, 0xE7B8_2D07), Xor(c, 0x90BF_1D91))
  }

  lemma RowXor(c: bv32, j: bv8)
    ensures RowFrom(c, j) == Xor(c, FirstRow(j))
  {
    hide Xor;
  }

  lemma FirstRowEntry(j: bv8)
    requires j < 16
    ensures FirstRow(j) == Entry(j)
  {
    hide Entry;
    Entries();
  }

  lemma Entries()
    ensures Entry(0) == 0x0000_0000 && Entry(1) == 0x7707_3096 && Entry(2) == 0xEE0E_612C && Entry(3) == 0x9909_51BA
    ensures Entry(4) == 0x076D_C419 && Entry(5) == 0x706A_F48F && Entry(6) == 0xE963_A535 && Entry(7) == 0x9E64_95A3
    ensures Entry(8) == 0x0EDB_8832 && Entry(9) == 0x79DC_B8A4 && Entry(10) == 0xE0D5_E91E && Entry(11) == 0x97D2_D988
    ensures Entry(12) == 0x09B6_4C2B && Entry(13) == 0x7EB1_7CBD && Entry(14) == 0xE7B8_2D07 && Entry(15) == 0x90BF_1D91
  {
    hide Entry;
    EntriesBelow();
    EntriesAbove();
  }

  lemma EntriesBelow()
    ensures Entry(0) == 0x0000_0000 && Entry(1) == 0x7707_3096 && Entry(2) == 0xEE0E_612C && Entry(3) == 0x9909_51BA
    ensures Entry(4) == 0x076D_C419 && Entry(5) == 0x706A_F48F && Entry(6) == 0xE963_A535 && Entry(7) == 0x9E64_95A3
  {
  }

  lemma EntriesAbove()
    ensures Entry(8) == 0x0EDB_8832 && Entry(9) == 0x79DC_B8A4 && Entry(10) == 0xE0D5_E91E && Entry(11) == 0x97D2_D988
    ensures Entry(12) == 0x09B6_4C2B && Entry(13) == 0x7EB1_7CBD && Entry(14) == 0xE7B8_2D07 && Entry(15) == 0x90BF_1D91
  {
  }

  /** The other rows are the first one with their first entry added. */
  lemma Rows(i: bv8, j: bv8)
    requires i < 16
    ensures BrownEntry(i, j) == RowFrom(RowStart(i), j)
  {
    hide Pick;
    match i
    case 0 => assert BrownEntry(0, j) == RowFrom(0x0000_0000, j);
    case 1 => assert BrownEntry(1, j) == RowFrom(0x1DB7_1064, j);
    case 2 => assert BrownEntry(2, j) == RowFrom(0x3B6E_20C8, j);
    case 3 => assert BrownEntry(3, j) == RowFrom(0x26D9_30AC, j);
    case 4 => assert BrownEntry(4, j) == RowFrom(0x76DC_4190, j);
    case 5 => assert BrownEntry(5, j) == RowFrom(0x6B6B_51F4, j);
    case 6 => assert BrownEntry(6, j) == RowFrom(0x4DB2_6158, j);
    case 7 => assert BrownEntry(7, j) == RowFrom(0x5005_713C, j);
    case 8 => assert BrownEntry(8, j) == RowFrom(0xEDB8_8320, j);
    case 9 => assert BrownEntry(9, j) == RowFrom(0xF00F_9344, j);
    case 10 => assert BrownEntry(10, j) == RowFrom(0xD6D6_A3E8, j);
    case 11 => assert BrownEntry(11, j) == RowFrom(0xCB61_B38C, j);
    case 12 => assert BrownEntry(12, j) == RowFrom(0x9B64_C2B0, j);
    case 13 => assert BrownEntry(13, j) == RowFrom(0x86D3_D2D4, j);
    case 14 => assert BrownEntry(14, j) == RowFrom(0xA00A_E278, j);
    case _ => assert BrownEntry(15, j) == RowFrom(0xBDBD_F21C, j);
  }

  function RowStart(i: bv8): bv32 {
    match i
    case 0 => 0x0000_0000
    case 1 => 0x1DB7_1064
    case 2 => 0x3B6E_20C8
    case 3 => 0x26D9_30AC
    case 4 => 0x76DC_4190
    case 5 => 0x6B6B_51F4
    case 6 => 0x4DB2_6158
    case 7 => 0x5005_713C
    case 8 => 0xEDB8_8320
    case 9 => 0xF00F_9344
    case 10 => 0xD6D6_A3E8
    case 11 => 0xCB61_B38C
    case 12 => 0x9B64_C2B0
    case 13 => 0x86D3_D2D4
    case 14 => 0xA00A_E278
    case _ => 0xBDBD_F21C
  }

  lemma FirstColumn(i: bv8)
    requires i < 16
    ensures RowStart(i) == Entry(i << 4)
  {
    hide Entry;
    FirstEntries();
    match i
    case 0 => assert i << 4 == 0;
    case 1 => assert i << 4 == 16;
    case 2 => assert i << 4 == 32;
    case 3 => assert i << 4 == 48;
    case 4 => assert i << 4 == 64;
    case 5 => assert i << 4 == 80;
    case 6 => assert i << 4 == 96;
    case 7 => assert i << 4 == 112;
    case 8 => assert i << 4 == 128;
    case 9 => assert i << 4 == 144;
    case 10 => assert i << 4 == 160;
    case 11 => assert i << 4 == 176;
    case 12 => assert i << 4 == 192;
    case 13 => assert i << 4 == 208;
    case 14 => assert i << 4 == 224;
    case _ => assert i << 4 == 240;
  }

  lemma FirstEntries()
    ensures Entry(0) == 0x0000_0000 && Entry(16) == 0x1DB7_1064 && Entry(32) == 0x3B6E_20C8 && Entry(48) == 0x26D9_30AC
    ensures Entry(64) == 0x76DC_4190 && Entry(80) == 0x6B6B_51F4
    ensures Entry(96) == 0x4DB2_6158 && Entry(112) == 0x5005_713C
    ensures Entry(128) == 0xEDB8_8320 && Entry(144) == 0xF00F_9344
    ensures Entry(160) == 0xD6D6_A3E8 && Entry(176) == 0xCB61_B38C
    ensures Entry(192) == 0x9B64_C2B0 && Entry(208) == 0x86D3_D2D4
    ensures Entry(224) == 0xA00A_E278 && Entry(240) == 0xBDBD_F21C
  {
    hide Entry;
    FirstEntriesBelow();
    FirstEntriesAbove();
  }

  lemma FirstEntriesBelow()
    ensures Entry(0) == 0x0000_0000 && Entry(16) == 0x1DB7_1064 && Entry(32) == 0x3B6E_20C8 && Entry(48) == 0x26D9_30AC
    ensures Entry(64) == 0x76DC_4190 && Entry(80) == 0x6B6B_51F4
    ensures Entry(96) == 0x4DB2_6158 && Entry(112) == 0x5005_713C
  {
  }

  lemma FirstEntriesAbove()
    ensures Entry(128) == 0xEDB8_8320 && Entry(144) == 0xF00F_9344
    ensures Entry(160) == 0xD6D6_A3E8 && Entry(176) == 0xCB61_B38C
    ensures Entry(192) == 0x9B64_C2B0 && Entry(208) == 0x86D3_D2D4
    ensures Entry(224) == 0xA00A_E278 && Entry(240) == 0xBDBD_F21C
  {
  }

  lemma SplitByte(b: bv8)
    ensures b >> 4 < 16 && b & 0xF < 16 && b == ((b >> 4) << 4) ^ (b & 0xF)
  {
  }

  lemma WordXor(a: bv8, b: bv8)
    ensures Word(a ^ b) == Xor(Word(a), Word(b))
  {
  }

  lemma EntryLinear(a: bv8, b: bv8)
    ensures Entry(a ^ b) == Xor(Entry(a), Entry(b))
  {
    hide Xor, Shift8;
    WordXor(a, b);
    Shift8Linear(Word(a), Word(b));
  }

  /** The precomputed table is the table of `crc32_ethl_init`. */
  lemma BrownIsEntry(b: bv8)
    ensures BrownAt(b) == Entry(b)
  {
    hide BrownEntry, FirstRow, RowFrom, RowStart, Entry, Xor;
    SplitByte(b);
    Rows(b >> 4, b & 0xF);
    RowXor(RowStart(b >> 4), b & 0xF);
    FirstColumn(b >> 4);
    FirstRowEntry(b & 0xF);
    EntryLinear((b >> 4) << 4, b & 0xF);
  }

  /** `crc32_brown`: it does not complement its result, so that a caller can go on with it. */
  method Brown(buf: array<bv8>, crc0: bv32) returns (crc: bv32)
    ensures buf.Length == 0 ==> crc == 0xFFFF_FFFF
    ensures buf.Length > 0 ==> crc == Remainder(Not(crc0), buf[..])
  {
    hide Entry, Shift8, Xor;
    if buf.Length == 0 {
      return 0xFFFF_FFFF;
    }
    crc := Complement(crc0);
    var i := 0;
    while i < buf.Length
      invariant 0 <= i <= buf.Length && crc == Remainder(Not(crc0), buf[..i])
    {
      RemainderNext(Not(crc0), buf[..], i);
      assert buf[..][..i] == buf[..i] && buf[..][..i + 1] == buf[..i + 1];
      crc := BrownStep(crc, buf[i]);
      i := i + 1;
    }
    assert buf[..i] == buf[..];
  }

  method Complement(c: bv32) returns (r: bv32)
    ensures r == Not(c)
  {
    r := c ^ !0;
  }

  method BrownStep(crc: bv32, byte: bv8) returns (c: bv32)
    ensures c == Shift8(Xor(crc, Word(byte)))
  {
    hide Shift8, Entry, BrownAt, Xor, Down8, Low, Word;
    var index := BrownSlot(crc, byte);
    BrownIsEntry(index);
    EntryWord(index);
    c := Xor(BrownAt(index), Down8(crc));
    XorCommutes(Entry(index), Down8(crc));
    TableStep(crc, byte);
  }

  method BrownSlot(crc: bv32, byte: bv8) returns (index: bv8)
    ensures Word(index) == Xor(Low(crc), Word(byte))
  {
    index := ((crc ^ (byte as bv32)) & 0xFF) as bv8;
    BrownIndex(crc, byte);
  }

  lemma BrownIndex(crc: bv32, byte: bv8)
    ensures Word(((crc ^ (byte as bv32)) & 0xFF) as bv8) == Xor(Low(crc), Word(byte))
  {
  }

  // ----- All of them together -----

  lemma CheckedStandard(s: seq<bv8>)
    requires s != []
    ensures Checked(s, |s|) == Not(Mirror32(Standard(s)))
  {
    hide Remainder, Standard, Mirror32, Not;
    RemainderStandard(s);
    assert s[..|s|] == s;
  }

  /** On any buffer the table gives the standard's check; so does the computation bit by bit, if the
      length is an `int`, and the precomputed table gives the complement when it starts from 0. */
  method AllAgree(buf: array<bv8>, table: Table)
    returns (bitwise: bv32, tabled: bv32, brown: bv32)
    requires 0 < buf.Length && table.Valid()
    modifies table.entries
    ensures tabled == Not(Mirror32(Standard(buf[..]))) && brown == Not(tabled)
    ensures buf.Length <= INT_MAX ==> bitwise == tabled
  {
    hide Standard, Remainder, Mirror32, Not;
    CheckedStandard(buf[..]);
    RemainderStandard(buf[..]);
    bitwise := Eth(buf);
    tabled := table.Ethl(buf);
    brown := Brown(buf, 0);
    Complements(Remainder(INITIAL, buf[..]));
  }

  lemma Complements(x: bv32)
    ensures Not(Not(x)) == x && Not(0) == INITIAL
  {
  }

  lemma RemainderAdd(crc: bv32, s: seq<bv8>, b: bv8)
    ensures Remainder(crc, s + [b]) == Shift8(Xor(Remainder(crc, s), Word(b)))
  {
    hide Shift8, Xor, Word;
    assert (s + [b])[..|s|] == s;
  }

  /** The last byte makes a difference to the remainder. */
  lemma LastByteCounts(s: seq<bv8>)
    ensures Remainder(INITIAL, s + [0]) != Remainder(INITIAL, s + [1])
  {
    hide Remainder, Shift8, Xor, Word;
    RemainderAdd(INITIAL, s, 0);
    RemainderAdd(INITIAL, s, 1);
    Shift8Linear(Remainder(INITIAL, s), Word(0));
    Shift8Linear(Remainder(INITIAL, s), Word(1));
    SmallWords(Shift8(Remainder(INITIAL, s)));
  }

  lemma SmallWords(x: bv32)
    ensures Xor(x, Shift8(Word(0))) != Xor(x, Shift8(Word(1)))
  {
    EntryOfOne();
    assert Shift8(Word(0)) == 0;
    hide Shift8;
    XorDiffers(x, 0x7707_3096);
  }

  lemma XorDiffers(x: bv32, y: bv32)
    requires y != 0
    ensures Xor(x, 0) != Xor(x, y)
  {
  }

  lemma NotInjective(x: bv32, y: bv32)
    ensures Not(x) == Not(y) <==> x == y
  {
  }

  /** The table and the computation bit by bit agree on all buffers of a length exactly when that
      length is an `int`: a longer buffer's last byte is never looked at. */
  lemma AgreeExactlyWhen(n: nat)
    ensures (forall s: seq<bv8> :: |s| == n ==> Checked(s, Counted(n)) == Checked(s, n)) <==> n <= INT_MAX
  {
    hide Remainder, Not, Checked;
    if n > INT_MAX {
      var init: seq<bv8> := seq(n - 1, i => 0);
      var a, b := init + [0], init + [1];
      assert a[..Counted(n)] == b[..Counted(n)];
      LastByteCounts(init);
      CheckedParts(a, n);
      CheckedParts(b, n);
      NotInjective(Remainder(INITIAL, a), Remainder(INITIAL, b));
      assert |a| == n && |b| == n;
    }
  }

  lemma CheckedParts(s: seq<bv8>, n: nat)
    requires |s| == n > 0
    ensures Checked(s, Counted(n)) == Not(Remainder(INITIAL, s[..Counted(n)]))
    ensures Checked(s, n) == Not(Remainder(INITIAL, s))
  {
    assert s[..n] == s;
  }
}
