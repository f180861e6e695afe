/**
 * The exported data types of the MLF library: the byte and 32-bit integer
 * types the encoder works with, the channel data-type enumeration with its
 * numeric codes, and the channel-name type.
 */
module MlfTypes {
  import opened Wrappers

  /** `uint8_t` */
  newtype byte = b: int | 0 <= b < 0x100

  /** `uint32_t` */
  newtype u32 = x: int | 0 <= x < 0x1_0000_0000

  /** The data type of a channel, in the order the enumeration declares them. */
  datatype ChannelDataType =
    | Invalid   // must not be used for a channel
    | Int8
    | Int16
    | Int32
    | Int64
    | UInt8
    | UInt16
    | UInt32
    | UInt64
    | Float32
    | Float64
    | Bit       // one whole byte per value
    | DateTime

  /** Every data type, listed in declaration order. */
  const AllTypes: seq<ChannelDataType> :=
    [Invalid, Int8, Int16, Int32, Int64, UInt8, UInt16, UInt32, UInt64,
     Float32, Float64, Bit, DateTime]

  /** The number of enumerators. */
  const TypeCount := 13

  /** The numeric value of an enumerator: its position in the declaration. */
  function Code(t: ChannelDataType): (c: nat)
    ensures c < TypeCount == |AllTypes|
    ensures AllTypes[c] == t
  {
    match t
    case Invalid => 0
    case Int8 => 1
    case Int16 => 2
    case Int32 => 3
    case Int64 => 4
    case UInt8 => 5
    case UInt16 => 6
    case UInt32 => 7
    case UInt64 => 8
    case Float32 => 9
    case Float64 => 10
    case Bit => 11
    case DateTime => 12
  }

  /** The enumerator with a given numeric value, if there is one. */
  function FromCode(c: int): (r: Option<ChannelDataType>)
    ensures r.Some? <==> 0 <= c < TypeCount
    ensures r.Some? ==> Code(r.value) == c
  {
    if 0 <= c < TypeCount then
      CodeInjective(AllTypes[c], c);
      Some(AllTypes[c])
    else None
  }

  /** Two positions of AllTypes hold different enumerators. */
  lemma CodeInjective(t: ChannelDataType, c: nat)
    requires c < TypeCount && AllTypes[c] == t
    ensures Code(t) == c
  {
  }

  /** Decoding the code of an enumerator gives the enumerator back. */
  lemma FromCodeOfCode(t: ChannelDataType)
    ensures FromCode(Code(t)) == Some(t)
  {
  }

  /** The longest channel name, in characters, not counting its terminator. */
  const MaxChannelNameSize := 20

  /** The characters of a C string: no NUL among them. */
  predicate NoNul(s: seq<byte>)
  {
    forall i :: 0 <= i < |s| ==> s[i] != 0
  }

  /**
   * The contents of a `char[21]` channel name: the characters before its
   * terminating NUL, so at most MaxChannelNameSize of them.
   */
  type ChannelName = s: seq<byte> | |s| <= MaxChannelNameSize && NoNul(s)
}
