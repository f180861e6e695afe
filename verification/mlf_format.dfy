/**
 * The MLF byte format, as values: the header the encoder writes, the width
 * of each channel's sample records, and a decoder for the header that shows
 * the layout is self-describing.
 */
module MlfFormat {
  import opened Wrappers
  import opened MlfTypes

  /** "MAHDALOGFILE" in ASCII. */
  const HeaderTag: seq<byte> := [77, 65, 72, 68, 65, 76, 79, 71, 70, 73, 76, 69]

  /** The log-type word, written first after the tag. */
  const LogType: u32 := 0

  /** The format version, written after the log type. */
  const Version: u32 := 3

  /** Bytes before the per-channel type codes: tag, log type, version, count. */
  const PreambleSize := 24

  /** The byte width of a sample of each data type, indexed by its code. */
  const DataTypeSize: seq<byte> := [0, 1, 2, 4, 8, 1, 2, 4, 8, 4, 8, 1, 4]

  /** The number of bytes a sample of type `t` occupies in the stream. */
  function Width(t: ChannelDataType): (w: nat)
    ensures w in {0, 1, 2, 4, 8}
    ensures w == 0 <==> t == Invalid
    ensures t in {Int8, UInt8, Bit} ==> w == 1
    ensures t in {Int16, UInt16} ==> w == 2
    ensures t in {Int32, UInt32, Float32, DateTime} ==> w == 4
    ensures t in {Int64, UInt64, Float64} ==> w == 8
  {
    DataTypeSize[Code(t)] as nat
  }

  /** The low byte of a value, as a `uint8_t` assignment keeps it. */
  function Low8(x: int): byte
    requires 0 <= x
  {
    (x % 0x100) as byte
  }

  /** A 32-bit value as four little-endian bytes: byte k is bits 8k..8k+7. */
  function LE32(v: u32): (r: seq<byte>)
    ensures |r| == 4
  {
    [Low8(v as int), Low8(v as int / 0x100), Low8(v as int / 0x1_0000), Low8(v as int / 0x100_0000)]
  }

  /** Four little-endian bytes read back as a 32-bit value. */
  function FromLE32(b: seq<byte>): (v: u32)
    requires |b| == 4
  {
    (b[0] as int + 0x100 * b[1] as int + 0x1_0000 * b[2] as int + 0x100_0000 * b[3] as int) as u32
  }

  /** The shifts by 16 and 24 bits are repeated shifts by 8 bits. */
  lemma ShiftSplit(x: int)
    requires 0 <= x < 0x1_0000_0000
    ensures x / 0x1_0000 == x / 0x100 / 0x100
    ensures x / 0x100_0000 == x / 0x1_0000 / 0x100
    ensures x / 0x100_0000 < 0x100
  {
    var q1 := x / 0x100;
    var q2 := q1 / 0x100;
    var q3 := q2 / 0x100;
    assert x == 0x1_0000 * q2 + (0x100 * (q1 % 0x100) + x % 0x100);
    assert x == 0x100_0000 * q3 + (0x1_0000 * (q2 % 0x100) + 0x100 * (q1 % 0x100) + x % 0x100);
  }

  /** Reassembling the four bytes gives the value back. */
  lemma LE32RoundTrip(v: u32)
    ensures FromLE32(LE32(v)) == v
  {
    var x := v as int;
    ShiftSplit(x);
    var q1 := x / 0x100;
    var q2 := q1 / 0x100;
    var q3 := q2 / 0x100;
    assert x == 0x100 * q1 + x % 0x100;
    assert q1 == 0x100 * q2 + q1 % 0x100;
    assert q2 == 0x100 * q3 + q2 % 0x100;
    assert q3 % 0x100 == q3;
  }

  /** Every four bytes are the encoding of the value they read back as. */
  lemma FromLE32RoundTrip(b: seq<byte>)
    requires |b| == 4
    ensures LE32(FromLE32(b)) == b
  {
    var x := FromLE32(b) as int;
    ShiftSplit(x);
    var rest1 := b[1] as int + 0x100 * b[2] as int + 0x1_0000 * b[3] as int;
    assert x == b[0] as int + 0x100 * rest1;
    assert x / 0x100 == rest1 && x % 0x100 == b[0] as int;
    var rest2 := b[2] as int + 0x100 * b[3] as int;
    assert rest1 / 0x100 == rest2 && rest1 % 0x100 == b[1] as int;
    assert rest2 / 0x100 == b[3] as int && rest2 % 0x100 == b[2] as int;
  }

  /** A value below 256 is encoded as itself followed by three zero bytes. */
  lemma LE32Small(v: u32)
    requires v < 0x100
    ensures LE32(v) == [v as byte, 0, 0, 0]
  {
  }

  /** Tag, log type, version and channel count. */
  function Preamble(n: u32): (r: seq<byte>)
    ensures |r| == PreambleSize
  {
    HeaderTag + LE32(LogType) + LE32(Version) + LE32(n)
  }

  /** One byte per channel holding the code of its data type. */
  function TypeCodes(types: seq<ChannelDataType>): (r: seq<byte>)
    ensures |r| == |types|
    ensures forall k :: 0 <= k < |types| ==> r[k] as int == Code(types[k])
  {
    seq(|types|, k requires 0 <= k < |types| => Code(types[k]) as byte)
  }

  /**
   * Each name followed by a single NUL, one after the other; its length is
   * the sum of the name lengths plus one each.
   */
  function NameTable(names: seq<seq<byte>>): (r: seq<byte>)
    ensures |r| == NamesSize(names)
  {
    if names == [] then [] else names[0] + [0] + NameTable(names[1..])
  }

  /** The sum, over the names, of their length plus one. */
  function NamesSize(names: seq<seq<byte>>): nat
  {
    if names == [] then 0 else |names[0]| + 1 + NamesSize(names[1..])
  }

  /** The complete header for the given channel types and names. */
  function Header(types: seq<ChannelDataType>, names: seq<seq<byte>>): seq<byte>
    requires |types| == |names| < 0x1_0000_0000
  {
    Preamble(|types| as u32) + TypeCodes(types) + NameTable(names)
  }

  /** Offset of the first byte of name `i` in the header. */
  function NameOffset(names: seq<seq<byte>>, i: nat): nat
    requires i <= |names|
  {
    PreambleSize + |names| + NamesSize(names[..i])
  }

  /**
   * How far into the buffer the header writer reaches: each name slot is
   * cleared for MaxChannelNameSize + 1 bytes before the name is copied, so
   * the last slot is cleared past the end of the header.
   */
  function HeaderExtent(names: seq<seq<byte>>): nat
  {
    if names == [] then PreambleSize
    else NameOffset(names, |names| - 1) + MaxChannelNameSize + 1
  }

  // ---------------------------------------------------------------------
  // Properties of the name table

  /** The name table of a concatenation is the concatenation of the tables. */
  lemma {:induction false} NameTableAppend(a: seq<seq<byte>>, b: seq<seq<byte>>)
    ensures NameTable(a + b) == NameTable(a) + NameTable(b)
  {
    if a == [] {
      assert a + b == b;
    } else {
      assert (a + b)[1..] == a[1..] + b;
      NameTableAppend(a[1..], b);
    }
  }

  /** Adding name `i` to the first `i` names appends it and one NUL. */
  lemma {:induction false} NameTableSnoc(names: seq<seq<byte>>, i: nat)
    requires i < |names|
    ensures NameTable(names[..i + 1]) == NameTable(names[..i]) + names[i] + [0]
  {
    assert names[..i + 1] == names[..i] + [names[i]];
    NameTableAppend(names[..i], [names[i]]);
    assert NameTable([names[i]]) == names[i] + [0] + NameTable([]);
  }

  /** Adding name `i` to the first `i` names adds its length plus one to their size. */
  lemma {:induction false} NamesSizeSnoc(names: seq<seq<byte>>, i: nat)
    requires i < |names|
    ensures NamesSize(names[..i + 1]) == NamesSize(names[..i]) + |names[i]| + 1
  {
    NameTableSnoc(names, i);
  }

  /** The names sizes of a longer prefix are at least as large. */
  lemma {:induction false} NamesSizeMonotone(names: seq<seq<byte>>, i: nat, j: nat)
    requires i <= j <= |names|
    ensures NamesSize(names[..i]) <= NamesSize(names[..j])
    decreases j - i
  {
    if i < j {
      NamesSizeMonotone(names, i + 1, j);
      NamesSizeSnoc(names, i);
    }
  }

  /** Names of at most MaxChannelNameSize characters use at most 21 bytes each. */
  lemma {:induction false} NamesSizeBound(names: seq<ChannelName>)
    ensures NamesSize(names) <= |names| * (MaxChannelNameSize + 1)
  {
    if names != [] {
      NamesSizeBound(names[1..]);
    }
  }

  // ---------------------------------------------------------------------
  // Layout of the header

  /** The header's length: 24 bytes, one per channel, and each name plus NUL. */
  lemma {:induction false} HeaderLength(types: seq<ChannelDataType>, names: seq<seq<byte>>)
    requires |types| == |names| < 0x1_0000_0000
    ensures |Header(types, names)| == PreambleSize + |types| + NamesSize(names)
  {
  }

  /** The fixed fields sit at offsets 0, 12, 16 and 20. */
  lemma {:induction false} HeaderPreamble(types: seq<ChannelDataType>, names: seq<seq<byte>>)
    requires |types| == |names| < 0x1_0000_0000
    ensures |Header(types, names)| >= PreambleSize
    ensures Header(types, names)[..12] == HeaderTag
    ensures Header(types, names)[12..16] == LE32(LogType) == [0, 0, 0, 0]
    ensures Header(types, names)[16..20] == LE32(Version) == [3, 0, 0, 0]
    ensures Header(types, names)[20..24] == LE32(|types| as u32)
  {
  }

  /** Byte 24 + k of the header is the type code of channel k. */
  lemma {:induction false} HeaderTypeAt(types: seq<ChannelDataType>, names: seq<seq<byte>>, k: nat)
    requires |types| == |names| < 0x1_0000_0000
    requires k < |types|
    ensures PreambleSize + k < |Header(types, names)|
    ensures Header(types, names)[PreambleSize + k] as int == Code(types[k])
  {
  }

  /** Name i is stored verbatim at NameOffset(names, i), followed by one NUL. */
  lemma {:induction false} HeaderNameAt(types: seq<ChannelDataType>, names: seq<seq<byte>>, i: nat)
    requires |types| == |names| < 0x1_0000_0000
    requires i < |names|
    ensures NameOffset(names, i) + |names[i]| + 1 <= |Header(types, names)|
    ensures Header(types, names)[NameOffset(names, i)..NameOffset(names, i) + |names[i]| + 1]
            == names[i] + [0]
  {
    var front := Preamble(|types| as u32) + TypeCodes(types) + NameTable(names[..i]);
    var back := NameTable(names[i + 1..]);
    NameTableSplit(names, i);
    assert Header(types, names) == front + (names[i] + [0]) + back;
    MiddleSlice(front, names[i] + [0], back);
  }

  /** The name table, cut around name `i`. */
  lemma {:induction false} NameTableSplit(names: seq<seq<byte>>, i: nat)
    requires i < |names|
    ensures NameTable(names) == NameTable(names[..i]) + (names[i] + [0]) + NameTable(names[i + 1..])
  {
    assert names == names[..i] + names[i..];
    NameTableAppend(names[..i], names[i..]);
    assert names[i..][1..] == names[i + 1..];
  }

  /** The middle piece of three is found between their lengths. */
  lemma MiddleSlice(a: seq<byte>, m: seq<byte>, c: seq<byte>)
    ensures (a + m + c)[|a|..|a| + |m|] == m
  {
  }

  /** A buffer of 24 + 22 bytes per channel always holds what the writer touches. */
  lemma {:induction false} HeaderExtentBound(types: seq<ChannelDataType>, names: seq<ChannelName>)
    requires |types| == |names| < 0x1_0000_0000
    ensures |Header(types, names)| <= HeaderExtent(names)
    ensures HeaderExtent(names) <= PreambleSize + |names| * (MaxChannelNameSize + 2)
  {
    HeaderLength(types, names);
    if names != [] {
      var n := |names|;
      NameTableSnoc(names, n - 1);
      assert names[..n] == names;
      NamesSizeBound(names[..n - 1]);
    }
  }

  // ---------------------------------------------------------------------
  // Decoding the header

  /** What a header says: the channel types and names, and its own length. */
  datatype HeaderInfo = HeaderInfo(types: seq<ChannelDataType>, names: seq<ChannelName>, length: nat)

  /** The index of the first NUL in `s`, if there is one. */
  function FindNul(s: seq<byte>): (r: Option<nat>)
    ensures r.Some? ==> r.value < |s| && s[r.value] == 0 && NoNul(s[..r.value])
    ensures r.None? ==> NoNul(s)
  {
    if s == [] then None
    else if s[0] == 0 then Some(0)
    else match FindNul(s[1..])
      case None => None
      case Some(i) => Some(i + 1)
  }

  /** The type code bytes decoded back to data types. */
  function ParseTypes(b: seq<byte>): (r: Option<seq<ChannelDataType>>)
    ensures r.Some? ==> |r.value| == |b| && TypeCodes(r.value) == b
  {
    if b == [] then Some([])
    else match (FromCode(b[0] as int), ParseTypes(b[1..]))
      case (Some(t), Some(ts)) => Some([t] + ts)
      case _ => None
  }

  /**
   * `k` NUL-terminated names read from the front of `b`, and the bytes used;
   * a name longer than a channel name can be is rejected.
   */
  function ParseNames(b: seq<byte>, k: nat): (r: Option<(seq<ChannelName>, nat)>)
    ensures r.Some? ==> |r.value.0| == k && r.value.1 <= |b|
  {
    if k == 0 then Some(([], 0))
    else match FindNul(b)
      case None => None
      case Some(i) =>
        if i > MaxChannelNameSize then None
        else match ParseNames(b[i + 1..], k - 1)
        case None => None
        case Some((rest, used)) => Some(([b[..i]] + rest, i + 1 + used))
  }

  /** The bytes the name reader uses are exactly the name table of what it read. */
  lemma {:induction false} ParseNamesUsed(b: seq<byte>, k: nat)
    requires ParseNames(b, k).Some?
    ensures var r := ParseNames(b, k).value; b[..r.1] == NameTable(r.0)
  {
    if k > 0 {
      ParseNamesStep(b, k);
      var i := FindNul(b).value;
      ParseNamesUsed(b[i + 1..], k - 1);
      var r' := ParseNames(b[i + 1..], k - 1).value;
      NameTableCons(b, i, r'.0, r'.1);
    }
  }

  /** A name ended by the NUL at `i`, then a name table, is the longer name table. */
  lemma {:induction false} NameTableCons(b: seq<byte>, i: nat, names: seq<seq<byte>>, used: nat)
    requires i + 1 + used <= |b| && b[i] == 0
    requires b[i + 1..][..used] == NameTable(names)
    ensures b[..i + 1 + used] == NameTable([b[..i]] + names)
  {
    assert ([b[..i]] + names)[1..] == names;
    assert b[..i + 1 + used] == b[..i] + [0] + b[i + 1..][..used];
  }

  /** The header at the front of `b`, if `b` starts with one. */
  function ParseHeader(b: seq<byte>): Option<HeaderInfo>
  {
    if |b| < PreambleSize || b[..12] != HeaderTag
       || FromLE32(b[12..16]) != LogType || FromLE32(b[16..20]) != Version then None
    else
      var n := FromLE32(b[20..24]) as nat;
      if |b| < PreambleSize + n then None
      else match ParseTypes(b[PreambleSize..PreambleSize + n])
        case None => None
        case Some(types) =>
          match ParseNames(b[PreambleSize + n..], n)
          case None => None
          case Some((names, used)) => Some(HeaderInfo(types, names, PreambleSize + n + used))
  }

  /** Type codes decode back to the data types they encode. */
  lemma {:induction false} ParseTypesOfTypeCodes(types: seq<ChannelDataType>)
    ensures ParseTypes(TypeCodes(types)) == Some(types)
  {
    if types != [] {
      assert TypeCodes(types)[1..] == TypeCodes(types[1..]);
      ParseTypesOfTypeCodes(types[1..]);
      FromCodeOfCode(types[0]);
      assert [types[0]] + types[1..] == types;
    }
  }

  /** One step of the name reader: a name up to the first NUL, then the rest. */
  lemma {:induction false} ParseNamesStep(b: seq<byte>, k: nat)
    requires k > 0 && ParseNames(b, k).Some?
    ensures FindNul(b).Some? && FindNul(b).value <= MaxChannelNameSize
    ensures var i := FindNul(b).value;
            ParseNames(b[i + 1..], k - 1).Some?
            && ParseNames(b, k).value.0 == [b[..i]] + ParseNames(b[i + 1..], k - 1).value.0
            && ParseNames(b, k).value.1 == i + 1 + ParseNames(b[i + 1..], k - 1).value.1
  {
  }

  /** A name table followed by anything decodes back to its names. */
  lemma {:induction false} ParseNamesOfNameTable(names: seq<ChannelName>, rest: seq<byte>)
    ensures var r := ParseNames(NameTable(names) + rest, |names|);
            r.Some? && r.value.0 == names && r.value.1 == |NameTable(names)|
  {
    if names != [] {
      var s, t := names[0], NameTable(names[1..]);
      assert NameTable(names) == s + [0] + t;
      var b := NameTable(names) + rest;
      assert b == s + [0] + (t + rest);
      ParseNamesOfNameTable(names[1..], rest);
      ParseNamesCons(s, t + rest, |names|, names[1..], |t|);
      assert [s] + names[1..] == names;
    }
  }

  /** Reading a NUL-free name and its NUL, then the other names from what follows. */
  lemma {:induction false} ParseNamesCons(s: ChannelName, tail: seq<byte>, k: nat, names: seq<ChannelName>, used: nat)
    requires k > 0
    requires ParseNames(tail, k - 1) == Some((names, used))
    ensures var r := ParseNames(s + [0] + tail, k);
            r.Some? && r.value.0 == [s] + names && r.value.1 == |s| + 1 + used
  {
    var b := s + [0] + tail;
    assert b == s + ([0] + tail);
    FindNulAfter(s, tail);
    assert b[|s| + 1..] == tail;
    assert b[..|s|] == s;
  }

  /** The first NUL after a NUL-free prefix is the one that ends it. */
  lemma {:induction false} FindNulAfter(s: seq<byte>, rest: seq<byte>)
    requires NoNul(s)
    ensures FindNul(s + ([0] + rest)) == Some(|s|)
  {
    if s != [] {
      assert (s + ([0] + rest))[1..] == s[1..] + ([0] + rest);
      FindNulAfter(s[1..], rest);
    }
  }

  /**
   * Decoding a header of channel names followed by any bytes (the sample
   * stream) gives back the channel types, the names and the header's length.
   */
  lemma {:induction false} HeaderRoundTrip(types: seq<ChannelDataType>, names: seq<ChannelName>, rest: seq<byte>)
    requires |types| == |names| < 0x1_0000_0000
    ensures var h := ParseHeader(Header(types, names) + rest);
            h.Some? && h.value.types == types && h.value.names == names
            && h.value.length == |Header(types, names)|
  {
    var n := |types|;
    var b := Header(types, names) + rest;
    HeaderFields(types, names, rest);
    HeaderLength(types, names);
    LE32RoundTrip(LogType);
    LE32RoundTrip(Version);
    LE32RoundTrip(n as u32);
    ParseTypesOfTypeCodes(types);
    ParseNamesOfNameTable(names, rest);
    ParseHeaderAccepts(b, types, names, NamesSize(names));
  }

  /** The decoder's verdict once each of its checks is known to pass. */
  lemma {:induction false} ParseHeaderAccepts(b: seq<byte>, types: seq<ChannelDataType>, names: seq<ChannelName>, used: nat)
    requires |b| >= PreambleSize && b[..12] == HeaderTag
    requires FromLE32(b[12..16]) == LogType && FromLE32(b[16..20]) == Version
    requires |b| >= PreambleSize + FromLE32(b[20..24]) as nat
    requires ParseTypes(b[PreambleSize..PreambleSize + FromLE32(b[20..24]) as nat]) == Some(types)
    requires ParseNames(b[PreambleSize + FromLE32(b[20..24]) as nat..], FromLE32(b[20..24]) as nat)
             == Some((names, used))
    ensures var h := ParseHeader(b);
            h.Some? && h.value.types == types && h.value.names == names
            && h.value.length == PreambleSize + |types| + used
  {
  }

  /** The fields of a header followed by other bytes, as slices. */
  lemma {:induction false} HeaderFields(types: seq<ChannelDataType>, names: seq<seq<byte>>, rest: seq<byte>)
    requires |types| == |names| < 0x1_0000_0000
    ensures var b := Header(types, names) + rest;
            |b| >= PreambleSize + |types|
            && b[..12] == HeaderTag && b[12..16] == LE32(LogType) && b[16..20] == LE32(Version)
            && b[20..24] == LE32(|types| as u32)
            && b[PreambleSize..PreambleSize + |types|] == TypeCodes(types)
            && b[PreambleSize + |types|..] == NameTable(names) + rest
  {
    var b := Header(types, names) + rest;
    var n := |types|;
    assert b == HeaderTag + LE32(LogType) + LE32(Version) + LE32(n as u32) + TypeCodes(types)
                + (NameTable(names) + rest);
  }

  /**
   * Whatever the decoder accepts is exactly a header the encoder can write:
   * as many names as types, each a channel name (by its type), and the
   * bytes read are the encoding of them.
   */
  lemma {:induction false} ParseHeaderSound(b: seq<byte>)
    requires ParseHeader(b).Some?
    ensures var h := ParseHeader(b).value;
            |h.types| == |h.names| < 0x1_0000_0000 && h.length <= |b|
            && b[..h.length] == Header(h.types, h.names)
  {
    ParseHeaderParts(b);
    var n := FromLE32(b[20..24]) as nat;
    var types := ParseTypes(b[PreambleSize..PreambleSize + n]).value;
    var parsed := ParseNames(b[PreambleSize + n..], n).value;
    ParseNamesUsed(b[PreambleSize + n..], n);
    PreambleOf(b);
    HeaderOfParts(b, n, types, parsed.0, parsed.1);
  }

  /** Preamble, type codes and name table found in a row make up a header. */
  lemma {:induction false} HeaderOfParts(b: seq<byte>, n: nat, types: seq<ChannelDataType>, names: seq<seq<byte>>, used: nat)
    requires PreambleSize + n + used <= |b| && |types| == |names| == n < 0x1_0000_0000
    requires b[..PreambleSize] == Preamble(n as u32)
    requires b[PreambleSize..PreambleSize + n] == TypeCodes(types)
    requires b[PreambleSize + n..][..used] == NameTable(names)
    ensures b[..PreambleSize + n + used] == Header(types, names)
  {
    SplitAt(b, PreambleSize, PreambleSize + n, PreambleSize + n + used);
  }

  /** What the decoder has checked when it accepts `b`. */
  lemma {:induction false} ParseHeaderParts(b: seq<byte>)
    requires ParseHeader(b).Some?
    ensures |b| >= PreambleSize && b[..12] == HeaderTag
    ensures FromLE32(b[12..16]) == LogType && FromLE32(b[16..20]) == Version
    ensures var n := FromLE32(b[20..24]) as nat;
            |b| >= PreambleSize + n
            && ParseTypes(b[PreambleSize..PreambleSize + n]).Some?
            && ParseNames(b[PreambleSize + n..], n).Some?
            && ParseHeader(b).value.types == ParseTypes(b[PreambleSize..PreambleSize + n]).value
            && ParseHeader(b).value.names == ParseNames(b[PreambleSize + n..], n).value.0
            && ParseHeader(b).value.length == PreambleSize + n + ParseNames(b[PreambleSize + n..], n).value.1
  {
  }

  /** Accepted fixed fields are the preamble for the channel count they carry. */
  lemma {:induction false} PreambleOf(b: seq<byte>)
    requires |b| >= PreambleSize && b[..12] == HeaderTag
    requires FromLE32(b[12..16]) == LogType && FromLE32(b[16..20]) == Version
    ensures b[..PreambleSize] == Preamble(FromLE32(b[20..24]))
  {
    FromLE32RoundTrip(b[12..16]);
    FromLE32RoundTrip(b[16..20]);
    FromLE32RoundTrip(b[20..24]);
    assert b[..PreambleSize] == b[..12] + b[12..16] + b[16..20] + b[20..24];
  }

  /** A prefix of `b` cut at `x` and `y` is its three pieces put together. */
  lemma SplitAt(b: seq<byte>, x: nat, y: nat, z: nat)
    requires x <= y <= z <= |b|
    ensures b[..z] == b[..x] + b[x..y] + b[y..][..z - y]
  {
  }

}
