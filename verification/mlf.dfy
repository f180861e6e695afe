/**
 * The MLF encoder: the header writer and the per-sample encoder, sharing a
 * handler that holds the channel count, the channel cursor and a reference
 * to the caller's channel-type array. Both write into a caller-owned byte
 * buffer starting at its first byte and report how many bytes they used.
 */
module Mlf {
  import opened MlfTypes
  import opened MlfFormat
  import opened MlfStream

  // ---------------------------------------------------------------------
  // Buffer contents

  /** `s` with the bytes `d` written over it from position `at` on. */
  function Write(s: seq<byte>, at: nat, d: seq<byte>): (r: seq<byte>)
    requires at + |d| <= |s|
    ensures |r| == |s|
  {
    seq(|s|, i requires 0 <= i < |s| => if at <= i < at + |d| then d[i - at] else s[i])
  }

  /** Byte `i` after a write is the written byte inside the written range, the old one outside. */
  lemma WriteAt(s: seq<byte>, at: nat, d: seq<byte>)
    requires at + |d| <= |s|
    ensures forall i :: 0 <= i < |s| ==> Write(s, at, d)[i] == if at <= i < at + |d| then d[i - at] else s[i]
  {
  }

  /** The written range reads back as the bytes written. */
  lemma WrittenRange(s: seq<byte>, at: nat, d: seq<byte>)
    requires at + |d| <= |s|
    ensures Write(s, at, d)[at..at + |d|] == d
  {
    WriteAt(s, at, d);
  }

  /** Appending is associative. */
  lemma AppendAssoc(a: seq<byte>, b: seq<byte>, c: seq<byte>)
    ensures a + b + c == a + (b + c)
  {
  }

  /** `n` zero bytes. */
  function Zeros(n: nat): (z: seq<byte>)
    ensures |z| == n && forall i :: 0 <= i < n ==> z[i] == 0
  {
    seq(n, _ => 0)
  }

  /**
   * Writing `d` right after `t` covers whatever followed `t` in an earlier
   * write, as long as `d` is at least as long.
   */
  lemma WriteOver(s: seq<byte>, at: nat, t: seq<byte>, z: seq<byte>, d: seq<byte>)
    requires |z| <= |d| && at + |t| + |d| <= |s|
    ensures Write(Write(s, at, t + z), at + |t|, d) == Write(s, at, t + d)
  {
    WriteAt(s, at, t + z);
    WriteAt(Write(s, at, t + z), at + |t|, d);
    WriteAt(s, at, t + d);
  }

  /** Two writes one right after the other are one write of both. */
  lemma WriteThen(s: seq<byte>, at: nat, t: seq<byte>, d: seq<byte>)
    requires at + |t| + |d| <= |s|
    ensures Write(Write(s, at, t), at + |t|, d) == Write(s, at, t + d)
  {
    WriteAt(s, at, t);
    WriteAt(Write(s, at, t), at + |t|, d);
    WriteAt(s, at, t + d);
  }

  /** Storing one byte is writing a one-byte sequence. */
  lemma WriteOne(s: seq<byte>, i: nat, x: byte)
    requires i < |s|
    ensures s[i := x] == Write(s, i, [x])
  {
    WriteAt(s, i, [x]);
  }

  // ---------------------------------------------------------------------
  // The library routines the encoder calls

  /** `strcpy(dest + at, src)`: the characters of `src`, then a NUL. */
  method StrCpy(dest: array<byte>, at: nat, src: seq<byte>)
    requires NoNul(src)
    requires at + |src| + 1 <= dest.Length
    modifies dest
    ensures dest[..] == Write(old(dest[..]), at, src + [0])
  {
    var k := 0;
    while k < |src|
      invariant k <= |src|
      invariant dest[..] == Write(old(dest[..]), at, src[..k])
    {
      ghost var before := dest[..];
      dest[at + k] := src[k];
      WriteOne(before, at + k, src[k]);
      WriteOver(old(dest[..]), at, src[..k], [], [src[k]]);
      assert src[..k] + [src[k]] == src[..k + 1];
      k := k + 1;
    }
    ghost var before := dest[..];
    dest[at + k] := 0;
    WriteOne(before, at + k, 0);
    WriteOver(old(dest[..]), at, src, [], [0]);
    assert src[..k] == src;
  }

  /** `memset(dest + at, value, count)` with value 0. */
  method MemSetZero(dest: array<byte>, at: nat, count: nat)
    requires at + count <= dest.Length
    modifies dest
    ensures dest[..] == Write(old(dest[..]), at, Zeros(count))
  {
    var k := 0;
    while k < count
      invariant k <= count
      invariant dest[..] == Write(old(dest[..]), at, Zeros(k))
    {
      ghost var before := dest[..];
      dest[at + k] := 0;
      WriteOne(before, at + k, 0);
      WriteOver(old(dest[..]), at, Zeros(k), [], [0]);
      assert Zeros(k) + [0] == Zeros(k + 1);
      k := k + 1;
    }
  }

  /** Writes `value` as four little-endian bytes at `dest[at..at + 4]`. */
  method CopyU32LittleEndian(dest: array<byte>, at: nat, value: u32)
    requires at + 4 <= dest.Length
    modifies dest
    ensures dest[..] == Write(old(dest[..]), at, LE32(value))
  {
    dest[at] := (value % 0x100) as byte;
    dest[at + 1] := (value / 0x100 % 0x100) as byte;
    dest[at + 2] := (value / 0x1_0000 % 0x100) as byte;
    dest[at + 3] := (value / 0x100_0000 % 0x100) as byte;
    assert dest[..] == Write(old(dest[..]), at, LE32(value));
  }

  // ---------------------------------------------------------------------
  // The parts of the header writer

  /**
   * The start of the header: the tag (whose NUL is overwritten by the next
   * field), the log type, the version and the channel count.
   */
  method WritePreamble(buff: array<byte>, numberOfChannels: u32) returns (p: nat)
    requires PreambleSize <= buff.Length
    modifies buff
    ensures p == PreambleSize
    ensures buff[..] == Write(old(buff[..]), 0, Preamble(numberOfChannels))
  {
    ghost var s := buff[..];
    p := 0;
    StrCpy(buff, p, HeaderTag);
    p := p + |HeaderTag|;
    CopyU32LittleEndian(buff, p, LogType);
    WriteOver(s, 0, HeaderTag, [0], LE32(LogType));
    p := p + 4;
    CopyU32LittleEndian(buff, p, Version);
    WriteOver(s, 0, HeaderTag + LE32(LogType), [], LE32(Version));
    p := p + 4;
    CopyU32LittleEndian(buff, p, numberOfChannels);
    WriteOver(s, 0, HeaderTag + LE32(LogType) + LE32(Version), [], LE32(numberOfChannels));
    p := p + 4;
  }

  /** The three bytes that follow the last type code, or none if there is none. */
  function CodeTail(k: nat): seq<byte>
  {
    if k == 0 then [] else [0, 0, 0]
  }

  /**
   * The first loop of the header writer: the type code of each of the first
   * `n` channels as one byte from `at` on. Each code is written as a whole
   * 32-bit word, so three zero bytes follow the last one.
   */
  method WriteTypeCodes(buff: array<byte>, at: nat, chDataTypes: array<ChannelDataType>, n: nat)
    requires n <= chDataTypes.Length
    requires at + n + |CodeTail(n)| <= buff.Length
    modifies buff
    ensures buff[..] == Write(old(buff[..]), at, TypeCodes(chDataTypes[..n]) + CodeTail(n))
  {
    var p := at;
    var counter := 0;
    while counter < n
      invariant counter <= n && p == at + counter
      invariant buff[..] == Write(old(buff[..]), at, TypeCodes(chDataTypes[..counter]) + CodeTail(counter))
    {
      var code := Code(chDataTypes[counter]) as u32;
      CopyU32LittleEndian(buff, p, code);
      ghost var types := chDataTypes[..n];
      assert chDataTypes[..counter] == types[..counter] && chDataTypes[..counter + 1] == types[..counter + 1];
      TypeCodesStep(types, counter);
      WriteOver(old(buff[..]), at, TypeCodes(types[..counter]), CodeTail(counter), LE32(code));
      p := p + 1;
      counter := counter + 1;
    }
  }

  /** Writing the code of channel k as a word extends the first k codes by one, then three zeros. */
  lemma {:induction false} TypeCodesStep(types: seq<ChannelDataType>, k: nat)
    requires k < |types|
    ensures TypeCodes(types[..k]) + LE32(Code(types[k]) as u32) == TypeCodes(types[..k + 1]) + CodeTail(k + 1)
  {
    LE32Small(Code(types[k]) as u32);
  }

  /** What a name slot holds once written: the name, its NUL and zeros up to the slot's end. */
  function Slot(name: ChannelName): (r: seq<byte>)
    ensures |r| == MaxChannelNameSize + 1
  {
    name + [0] + Zeros(MaxChannelNameSize - |name|)
  }

  /** One name slot: cleared, then the name and its NUL copied to its front. */
  method WriteNameSlot(buff: array<byte>, at: nat, name: ChannelName)
    requires at + MaxChannelNameSize + 1 <= buff.Length
    modifies buff
    ensures buff[..] == Write(old(buff[..]), at, Slot(name))
  {
    MemSetZero(buff, at, MaxChannelNameSize + 1);
    StrCpy(buff, at, name);
    ghost var pad := Zeros(MaxChannelNameSize - |name|);
    assert Zeros(MaxChannelNameSize + 1) == Zeros(|name| + 1) + pad;
    assert Write(Write(old(buff[..]), at, Zeros(|name| + 1) + pad), at, name + [0])
        == Write(old(buff[..]), at, name + [0] + pad);
  }

  /** The zero bytes left after the names once every slot has been cleared and filled. */
  function SlotPadding(names: seq<ChannelName>): seq<byte>
  {
    if names == [] then [] else Zeros(MaxChannelNameSize - |names[|names| - 1]|)
  }

  /**
   * The second loop of the header writer: for each name, clear a slot of
   * MaxChannelNameSize + 1 bytes, copy the name and its NUL into it, and
   * move on by the name's length plus one.
   */
  method WriteNames(buff: array<byte>, at: nat, names: seq<ChannelName>) returns (p: nat)
    requires at + NamesSize(names) + |SlotPadding(names)| <= buff.Length
    modifies buff
    ensures p == at + NamesSize(names)
    ensures buff[..] == Write(old(buff[..]), at, NameTable(names) + SlotPadding(names))
  {
    var n := |names|;
    p := at;
    var counter := 0;
    while counter < n
      invariant counter <= n && p == at + NamesSize(names[..counter])
      invariant at + NamesSize(names[..counter]) + |SlotPadding(names[..counter])| <= buff.Length
      invariant buff[..] == Write(old(buff[..]), at, NameTable(names[..counter]) + SlotPadding(names[..counter]))
    {
      SlotFits(names, counter);
      var name := names[counter];
      FillSlot(buff, old(buff[..]), at, names, counter, p);
      p := p + |name| + 1;
      counter := counter + 1;
    }
    assert names[..n] == names;
  }

  /**
   * One turn of the second loop: slot `k` written at `p`, right after the
   * first `k` names, turns their table and padding into those of the first
   * `k + 1` names.
   */
  method FillSlot(buff: array<byte>, ghost s: seq<byte>, at: nat, names: seq<ChannelName>, k: nat, p: nat)
    requires k < |names| && p == at + NamesSize(names[..k])
    requires p + MaxChannelNameSize + 1 <= buff.Length == |s|
    requires |SlotPadding(names[..k])| <= MaxChannelNameSize + 1
    requires buff[..] == Write(s, at, NameTable(names[..k]) + SlotPadding(names[..k]))
    modifies buff
    ensures NamesSize(names[..k + 1]) == NamesSize(names[..k]) + |names[k]| + 1
    ensures at + NamesSize(names[..k + 1]) + |SlotPadding(names[..k + 1])| <= buff.Length
    ensures buff[..] == Write(s, at, NameTable(names[..k + 1]) + SlotPadding(names[..k + 1]))
  {
    var table := NameTable(names[..k]);
    WriteNameSlot(buff, p, names[k]);
    WriteOver(s, at, table, SlotPadding(names[..k]), Slot(names[k]));
    NameTableSnoc(names, k);
    NamesSizeSnoc(names, k);
    assert table + Slot(names[k]) == NameTable(names[..k + 1]) + SlotPadding(names[..k + 1]);
  }

  /** The slot for name `k` lies within the names and the padding after the last one. */
  lemma SlotFits(names: seq<ChannelName>, k: nat)
    requires k < |names|
    ensures NamesSize(names[..k]) + MaxChannelNameSize + 1 <= NamesSize(names) + |SlotPadding(names)|
  {
    var n := |names|;
    NamesSizeSnoc(names, k);
    NamesSizeMonotone(names, k + 1, n);
    NamesSizeSnoc(names, n - 1);
    if k < n - 1 {
      NamesSizeMonotone(names, k + 1, n - 1);
    }
    assert names[..n] == names;
  }

  /** Where the padding after the names ends is the extent of the header writer. */
  lemma PaddingReachesExtent(types: seq<ChannelDataType>, names: seq<ChannelName>)
    requires |types| == |names| < 0x1_0000_0000
    ensures |Header(types, names)| + |SlotPadding(names)| == HeaderExtent(names)
    ensures SlotPadding(names) == Zeros(HeaderExtent(names) - |Header(types, names)|)
  {
    HeaderLength(types, names);
    if names != [] {
      var n := |names|;
      NamesSizeSnoc(names, n - 1);
      assert names[..n] == names;
    } else {
      assert Zeros(0) == [];
    }
  }

  // ---------------------------------------------------------------------
  // The handler and the two entry points

  /** The state shared by the header writer and the sample encoder. */
  class Handler {
    /** The number of channels. */
    var numOfCh: u32
    /** The channel the next sample belongs to. */
    var chNumber: u32
    /** The caller's channel-type array, referenced rather than copied; null until the header is written. */
    var chDataType: array?<ChannelDataType>

    /** The handler is set up: the cursor is on one of the channels the array covers. */
    ghost predicate Valid()
      reads this
    {
      chDataType != null && numOfCh as int <= chDataType.Length
      && (if numOfCh == 0 then chNumber == 0 else chNumber < numOfCh)
    }

    /** A zero-initialised handler, before the header is written. */
    constructor ()
      ensures numOfCh == 0 && chNumber == 0 && chDataType == null
    {
      numOfCh := 0;
      chNumber := 0;
      chDataType := null;
    }

    /**
     * Writes the header for the first `numberOfChannels` names and types
     * into `buff` and sets the handler up: `numberOfChannels` channels, the
     * cursor on channel 0, and the caller's type array itself retained.
     * The buffer then holds Header(types, names) from its first byte,
     * followed by zeros up to HeaderExtent(names) (the rest of the last
     * cleared name slot), and is unchanged beyond that; the reported size
     * is the header's length, as a 32-bit count.
     */
    method Init(numberOfChannels: u32, chNames: seq<ChannelName>,
                chDataTypes: array<ChannelDataType>, buff: array<byte>) returns (size: u32)
      requires |chNames| >= numberOfChannels as int
      requires chDataTypes.Length >= numberOfChannels as int
      requires buff.Length >= HeaderExtent(chNames[..numberOfChannels])
      modifies this, buff
      ensures Valid()
      ensures numOfCh == numberOfChannels && chNumber == 0 && chDataType == chDataTypes
      ensures var names := chNames[..numberOfChannels];
              var h := Header(chDataTypes[..numberOfChannels], names);
              |h| <= HeaderExtent(names)
              && buff[..] == Write(old(buff[..]), 0, h + Zeros(HeaderExtent(names) - |h|))
              && size as int == |h| % 0x1_0000_0000
    {
      var n := numberOfChannels as nat;
      ghost var types, names := chDataTypes[..n], chNames[..n];
      ghost var s := buff[..];
      numOfCh := numberOfChannels;
      chNumber := 0;
      chDataType := chDataTypes;
      ghost var pre, codes, pad := Preamble(numberOfChannels), TypeCodes(types) + CodeTail(n), SlotPadding(names);
      ghost var h := Header(types, names);
      PaddingReachesExtent(types, names);
      HeaderLength(types, names);

      // p is how far the write position has moved from the start of buff
      var p := WritePreamble(buff, numberOfChannels);
      WriteTypeCodes(buff, p, chDataTypes, n);
      WriteThen(s, 0, pre, codes);
      assert buff[..] == Write(s, 0, pre + codes);
      p := p + n;
      var nameEnd := WriteNames(buff, p, chNames[..n]);
      assert pre + codes == (pre + TypeCodes(types)) + CodeTail(n);
      WriteOver(s, 0, pre + TypeCodes(types), CodeTail(n), NameTable(names) + pad);
      assert pre + TypeCodes(types) + (NameTable(names) + pad) == h + pad;
      assert buff[..] == Write(s, 0, h + pad);
      p := nameEnd;
      size := (p % 0x1_0000_0000) as u32;
    }

    /**
     * Encodes one sample of the channel under the cursor: reports that
     * channel's width, copies that many bytes of the sample to the front of
     * `buff` and leaves the rest of `buff` alone, and moves the cursor to the
     * next channel, wrapping to 0 after the last.
     */
    method AddSample(samples: seq<byte>, buff: array<byte>) returns (size: u32)
      requires Valid() && numOfCh > 0
      requires |samples| >= Width(chDataType[chNumber])
      requires buff.Length >= Width(chDataType[chNumber])
      modifies this`chNumber, buff
      ensures Valid() && numOfCh == old(numOfCh) && chDataType == old(chDataType)
      ensures size as int == Width(chDataType[old(chNumber)])
      ensures chNumber as int == (old(chNumber) as int + 1) % numOfCh as int
      ensures buff[..] == Write(old(buff[..]), 0, samples[..size])
    {
      size := DataTypeSize[Code(chDataType[chNumber])] as u32;
      ghost var c := chNumber as nat;
      chNumber := chNumber + 1;
      if chNumber >= numOfCh {
        chNumber := 0;
      }
      assert chNumber as int == NextChannel(c, numOfCh as nat);

      if size > 0 {
        buff[0] := samples[0];
      }
      if size > 1 {
        buff[1] := samples[1];
      }
      if size > 3 {
        buff[2] := samples[2];
        buff[3] := samples[3];
      }
      if size > 7 {
        buff[4] := samples[4];
        buff[5] := samples[5];
        buff[6] := samples[6];
        buff[7] := samples[7];
      }
      assert buff[..] == Write(old(buff[..]), 0, samples[..size]);
    }
  }

  /**
   * A logger's use of the sample encoder: one call per sample, each call's
   * output appended to what the earlier calls produced. The collected bytes
   * are the record stream `Stream` describes, starting from the cursor the
   * handler had, and the cursor ends `|samples|` channels further on.
   */
  method EncodeSamples(h: Handler, samples: seq<seq<byte>>, buff: array<byte>) returns (out: seq<byte>)
    requires h.Valid() && h.numOfCh > 0
    requires forall k :: 0 <= k < h.numOfCh ==> Width(h.chDataType[k]) <= buff.Length
    requires SamplesFit(h.chDataType[..h.numOfCh], h.chNumber as nat, samples)
    modifies h`chNumber, buff
    ensures h.Valid() && h.numOfCh == old(h.numOfCh) && h.chDataType == old(h.chDataType)
    ensures h.chNumber as nat == Advance(old(h.chNumber) as nat, h.numOfCh as nat, |samples|)
    ensures out == Stream(h.chDataType[..h.numOfCh], old(h.chNumber) as nat, samples)
  {
    ghost var types, n, c0 := h.chDataType[..h.numOfCh], h.numOfCh as nat, h.chNumber as nat;
    out := [];
    var i := 0;
    while i < |samples|
      invariant i <= |samples|
      invariant h.Valid() && h.numOfCh as nat == n && h.chDataType == old(h.chDataType)
      invariant h.chDataType[..h.numOfCh] == types
      invariant h.chNumber as nat == Advance(c0, n, i)
      invariant SamplesFit(types, h.chNumber as nat, samples[i..])
      invariant out + Stream(types, h.chNumber as nat, samples[i..]) == Stream(types, c0, samples)
    {
      out := EncodeNext(h, samples, i, buff, types, out);
      i := i + 1;
    }
    assert samples[i..] == [];
  }

  /** One turn of `EncodeSamples`: sample `i` encoded and its record appended to `out`. */
  method EncodeNext(h: Handler, samples: seq<seq<byte>>, i: nat, buff: array<byte>,
                    ghost types: seq<ChannelDataType>, out: seq<byte>) returns (out': seq<byte>)
    requires h.Valid() && h.numOfCh > 0 && h.chDataType[..h.numOfCh] == types
    requires forall k :: 0 <= k < h.numOfCh ==> Width(h.chDataType[k]) <= buff.Length
    requires i < |samples| && SamplesFit(types, h.chNumber as nat, samples[i..])
    modifies h`chNumber, buff
    ensures h.Valid() && h.numOfCh == old(h.numOfCh) && h.chDataType == old(h.chDataType)
    ensures h.chNumber as nat == NextChannel(old(h.chNumber) as nat, |types|)
    ensures SamplesFit(types, h.chNumber as nat, samples[i + 1..])
    ensures out' + Stream(types, h.chNumber as nat, samples[i + 1..])
            == out + Stream(types, old(h.chNumber) as nat, samples[i..])
  {
    ghost var c, before := h.chNumber as nat, buff[..];
    StreamStep(types, c, samples, i);
    var size := h.AddSample(samples[i], buff);
    WrittenRange(before, 0, samples[i][..size]);
    assert buff[..size] == samples[i][..Width(types[c])];
    AppendAssoc(out, buff[..size], Stream(types, NextChannel(c, |types|), samples[i + 1..]));
    out' := out + buff[..size];
  }
}
