/** What silence is, byte for byte, in each sample format. */
module Silence {
  type byte = x: int | 0 <= x < 256

  datatype Format =
    | U8 | U16LE | U16BE | U24LE | U24BE | U20LE | U20BE | U18LE | U18BE
    | U24in32LE | U24in32BE | U32LE | U32BE | ULaw | ALaw | Signed

  /** One sample of silence repeated through a frame of `frameMultiple` bytes. */
  datatype SilencePattern = SilencePattern(sample: seq<byte>, frameMultiple: nat) {
    ghost predicate Valid() { |sample| > 0 && frameMultiple > 0 }

    /** The silent byte at stream position `p`. */
    function At(p: nat): byte
      requires Valid()
    {
      sample[(p % frameMultiple) % |sample|]
    }

    /** The repeated byte, if a byte fill is silence. */
    function UniformByte(): (r: int)
      requires Valid()
      ensures r >= 0 ==> forall p: nat :: At(p) == r
      ensures r < 0 ==> exists i, j :: 0 <= i < |sample| && 0 <= j < |sample| && sample[i] != sample[j]
      ensures r < 256
    {
      if forall i :: 0 <= i < |sample| ==> sample[i] == sample[0] then sample[0] else -1
    }

    /** Silence from byte `offset` of a frame on. */
    method FillAt(offset: nat, output: array<byte>, lo: nat, hi: nat)
      requires Valid() && lo <= hi <= output.Length
      modifies output
      ensures forall i :: lo <= i < hi ==> output[i] == At(offset + (i - lo))
      ensures forall i :: 0 <= i < output.Length && !(lo <= i < hi) ==> output[i] == old(output[i])
    {
      for i := lo to hi
        invariant forall k :: lo <= k < i ==> output[k] == At(offset + (k - lo))
        invariant forall k :: 0 <= k < output.Length && !(lo <= k < i) ==> output[k] == old(output[k])
      {
        output[i] := sample[((offset + (i - lo)) % frameMultiple) % |sample|];
      }
    }
  }

  function Sample(f: Format): seq<byte> {
    match f
    case U8 => [0x80]
    case U16LE => [0x00, 0x80]
    case U16BE => [0x80, 0x00]
    case U24LE => [0x00, 0x00, 0x80]
    case U24BE => [0x80, 0x00, 0x00]
    case U20LE => [0x00, 0x00, 0x08]
    case U20BE => [0x08, 0x00, 0x00]
    case U18LE => [0x00, 0x00, 0x02]
    case U18BE => [0x02, 0x00, 0x00]
    case U24in32LE => [0x00, 0x00, 0x80, 0x00]
    case U24in32BE => [0x00, 0x80, 0x00, 0x00]
    case U32LE => [0x00, 0x00, 0x00, 0x80]
    case U32BE => [0x80, 0x00, 0x00, 0x00]
    case ULaw => [0xff]
    case ALaw => [0x55]
    case Signed => [0x00]
  }

  /** The unsigned number a sample holds. */
  function Number(bytes: seq<byte>, bigEndian: bool): nat {
    if bytes == [] then 0
    else if bigEndian then Number(bytes[..|bytes| - 1], true) * 256 + bytes[|bytes| - 1]
    else bytes[0] + 256 * Number(bytes[1..], false)
  }

  predicate Holds(bytes: seq<byte>, width: nat, bigEndian: bool, value: nat) {
    |bytes| == width && Number(bytes, bigEndian) == value
  }

  /** Silence is the middle of the encoding's range: half of it for unsigned numbers, whatever their
      width and byte order, zero for signed ones, and the companded codes of no amplitude. */
  lemma SilenceIsTheMidpoint(f: Format)
    ensures match f
            case U8 => Holds(Sample(f), 1, false, 0x80)
            case U16LE => Holds(Sample(f), 2, false, 0x8000)
            case U16BE => Holds(Sample(f), 2, true, 0x8000)
            case U18LE => Holds(Sample(f), 3, false, 0x2_0000)
            case U18BE => Holds(Sample(f), 3, true, 0x2_0000)
            case U20LE => Holds(Sample(f), 3, false, 0x8_0000)
            case U20BE => Holds(Sample(f), 3, true, 0x8_0000)
            case U24LE => Holds(Sample(f), 3, false, 0x80_0000)
            case U24BE => Holds(Sample(f), 3, true, 0x80_0000)
            case U24in32LE => Holds(Sample(f), 4, false, 0x80_0000)
            case U24in32BE => Holds(Sample(f), 4, true, 0x80_0000)
            case U32LE => Holds(Sample(f), 4, false, 0x8000_0000)
            case U32BE => Holds(Sample(f), 4, true, 0x8000_0000)
            case ULaw => Holds(Sample(f), 1, false, 0xff)
            case ALaw => Holds(Sample(f), 1, false, 0x55)
            case Signed => Holds(Sample(f), 1, false, 0)
  {
    var s := Sample(f);
    NumberOfFour(s, true);
    NumberOfFour(s, false);
  }

  function Pair(first: int, second: int, bigEndian: bool): int {
    if bigEndian then 256 * first + second else first + 256 * second
  }

  lemma NumberOfFour(s: seq<byte>, bigEndian: bool)
    ensures |s| == 1 ==> Number(s, bigEndian) == s[0]
    ensures |s| == 2 ==> Number(s, bigEndian) == Pair(s[0], s[1], bigEndian)
    ensures |s| == 3 ==> Number(s, true) == Pair(s[0], s[1], true) * 256 + s[2]
    ensures |s| == 3 ==> Number(s, false) == s[0] + 256 * Pair(s[1], s[2], false)
    ensures |s| == 4 ==> Number(s, true) == (Pair(s[0], s[1], true) * 256 + s[2]) * 256 + s[3]
    ensures |s| == 4 ==> Number(s, false) == s[0] + 256 * (s[1] + 256 * Pair(s[2], s[3], false))
    decreases |s|
  {
    if 1 < |s| <= 4 {
      NumberOfFour(s[..|s| - 1], true);
      NumberOfFour(s[1..], false);
    }
  }

  function ForConfig(f: Format, stride: nat): SilencePattern {
    SilencePattern(Sample(f), if stride == 0 then 1 else stride)
  }

  /** A byte fill is silence exactly for the one-byte encodings and the signed ones, and then it is
      one of the four bytes the writer keeps ready. */
  lemma UniformFormats(f: Format, stride: nat)
    ensures ForConfig(f, stride).Valid()
    ensures forall p: nat :: ForConfig(f, stride).At(p) == Sample(f)[if stride == 0 then 0 else (p % stride) % |Sample(f)|]
    ensures ForConfig(f, stride).UniformByte() >= 0 <==> |Sample(f)| == 1
    ensures ForConfig(f, stride).UniformByte() >= 0 ==>
              ForConfig(f, stride).UniformByte() in {0, 0x80, 0xff, 0x55}
  {
    var p := ForConfig(f, stride);
    if |Sample(f)| > 1 {
      assert exists i :: 0 < i < |p.sample| && p.sample[i] != p.sample[0] by {
        assert p.sample[0] != p.sample[1] || p.sample[0] != p.sample[2] || p.sample[0] != p.sample[3];
      }
    }
  }
}
