/**
 * The byte-level helpers the referral codec relies on: little-endian 16- and
 * 32-bit readers and writers, and NUL-terminated UTF-16LE strings. A reader
 * that runs past the end of the buffer is the exception the .NET helpers
 * throw, modelled as None.
 */
module LittleEndian {
  import opened Wrappers
  import opened Text

  type byte = b: int | 0 <= b < 0x100

  /** A .NET ushort. */
  type uint16 = x: int | 0 <= x < 0x1_0000

  /** LittleEndianConverter.ToUInt16. */
  function ReadU16(buf: seq<byte>, off: int): (r: Option<nat>)
    ensures r.Some? <==> 0 <= off && off + 2 <= |buf|
    ensures r.Some? ==> r.value < 0x1_0000 && r.value % 0x100 == buf[off] && r.value / 0x100 == buf[off + 1]
  {
    if 0 <= off && off + 2 <= |buf| then Some(buf[off] as int + 0x100 * buf[off + 1] as int) else None
  }

  /** LittleEndianConverter.ToUInt32. */
  function ReadU32(buf: seq<byte>, off: int): (r: Option<nat>)
    ensures r.Some? <==> 0 <= off && off + 4 <= |buf|
    ensures r.Some? ==> r.value < 0x1_0000_0000
    ensures r.Some? ==> r.value == ReadU16(buf, off).value + 0x1_0000 * ReadU16(buf, off + 2).value
  {
    if 0 <= off && off + 4 <= |buf| then
      Some(buf[off] as int + 0x100 * buf[off + 1] as int + 0x1_0000 * buf[off + 2] as int + 0x100_0000 * buf[off + 3] as int)
    else None
  }

  /** The two bytes LittleEndianWriter.WriteUInt16 stores. */
  function U16Bytes(x: nat): (r: seq<byte>)
    requires x < 0x1_0000
    ensures |r| == 2
  {
    [x % 0x100, x / 0x100]
  }

  /** Reading back what was written at any position gives the same number. */
  lemma ReadU16OfU16Bytes(pre: seq<byte>, x: nat, post: seq<byte>)
    requires x < 0x1_0000
    ensures ReadU16(pre + U16Bytes(x) + post, |pre|) == Some(x)
  {
    var buf := pre + U16Bytes(x) + post;
    assert buf[|pre|] == x % 0x100 && buf[|pre| + 1] == x / 0x100;
  }

  /** The four bytes LittleEndianWriter.WriteUInt32 stores. */
  function U32Bytes(x: nat): (r: seq<byte>)
    requires x < 0x1_0000_0000
    ensures |r| == 4
  {
    U16Bytes(x % 0x1_0000) + U16Bytes(x / 0x1_0000)
  }

  /** `field` sits in `buf` starting at `off`. */
  predicate At(buf: seq<byte>, off: nat, field: seq<byte>) {
    off + |field| <= |buf| && forall i :: 0 <= i < |field| ==> buf[off + i] == field[i]
  }

  lemma AtMiddle(pre: seq<byte>, field: seq<byte>, post: seq<byte>)
    ensures At(pre + field + post, |pre|, field)
  {
  }

  /** Two adjacent fields sit one after the other. */
  lemma AtConcat(buf: seq<byte>, off: nat, first: seq<byte>, second: seq<byte>)
    requires At(buf, off, first + second)
    ensures At(buf, off, first) && At(buf, off + |first|, second)
  {
    forall i | 0 <= i < |first| ensures buf[off + i] == first[i] {
      assert (first + second)[i] == first[i];
    }
    forall i | 0 <= i < |second| ensures buf[off + |first| + i] == second[i] {
      assert (first + second)[|first| + i] == second[i];
    }
  }

  /** A reader finds a u16 wherever its two bytes sit in the buffer. */
  lemma ReadU16At(buf: seq<byte>, off: nat, x: nat)
    requires x < 0x1_0000
    requires At(buf, off, U16Bytes(x))
    ensures ReadU16(buf, off) == Some(x)
  {
    assert buf[off + 0] == U16Bytes(x)[0] && buf[off + 1] == U16Bytes(x)[1];
  }

  /** A reader finds a u32 wherever its four bytes sit in the buffer. */
  lemma ReadU32At(buf: seq<byte>, off: nat, x: nat)
    requires x < 0x1_0000_0000
    requires At(buf, off, U32Bytes(x))
    ensures ReadU32(buf, off) == Some(x)
  {
    AtConcat(buf, off, U16Bytes(x % 0x1_0000), U16Bytes(x / 0x1_0000));
    ReadU16At(buf, off, x % 0x1_0000);
    ReadU16At(buf, off + 2, x / 0x1_0000);
  }

  /** C#'s unchecked (int) cast of a uint: the 32-bit pattern read as two's complement. */
  function ToInt32(u: nat): (r: int)
    requires u < 0x1_0000_0000
    ensures -0x8000_0000 <= r < 0x8000_0000
    ensures (r + 0x1_0000_0000) % 0x1_0000_0000 == u
  {
    if u < 0x8000_0000 then u else u - 0x1_0000_0000
  }

  /** A [Flags] test (x & bit) != 0 for a single-bit mask. */
  predicate BitSet(x: nat, bit: nat)
    requires bit > 0
  {
    (x / bit) % 2 == 1
  }

  /** The bytes of a string in UTF-16LE, two per code unit, no terminator. */
  function Utf16Bytes(s: WString): (r: seq<byte>)
    ensures |r| == 2 * |s|
    ensures forall i :: 0 <= i < |s| ==> r[2 * i] == s[i] % 0x100 && r[2 * i + 1] == s[i] / 0x100
  {
    if s == [] then [] else [s[0] % 0x100, s[0] / 0x100] + Utf16Bytes(s[1..])
  }

  /** A string the reader can give back: it holds no NUL code unit. */
  predicate NoNul(s: WString) {
    forall i :: 0 <= i < |s| ==> s[i] != 0
  }

  /**
   * ByteReader.ReadNullTerminatedUTF16String: the code units from `off` up to
   * the first 0x0000 unit, and the offset just past that terminator (what the
   * `ref` overload leaves in its cursor). None when the buffer ends first.
   */
  function ReadUtf16Z(buf: seq<byte>, off: int): (r: Option<(WString, nat)>)
    requires 0 <= off
    decreases |buf| - off
    ensures r.Some? ==> NoNul(r.value.0)
    ensures r.Some? ==> r.value.1 == off + 2 * |r.value.0| + 2 <= |buf|
  {
    match ReadU16(buf, off)
    case None => None
    case Some(unit) =>
      if unit == 0 then Some(([], off + 2))
      else
        match ReadUtf16Z(buf, off + 2)
        case None => None
        case Some((rest, next)) => Some(([unit] + rest, next))
  }

  /** What the string reader returns is exactly what the buffer holds from `off`: the string's bytes and a terminator. */
  lemma {:induction false} ReadUtf16ZReadsBytes(buf: seq<byte>, off: nat)
    requires ReadUtf16Z(buf, off).Some?
    ensures var (s, next) := ReadUtf16Z(buf, off).value; buf[off..next] == Utf16Bytes(s) + [0, 0]
    decreases |buf| - off
  {
    var (s, next) := ReadUtf16Z(buf, off).value;
    var unit := ReadU16(buf, off).value;
    if unit != 0 {
      ReadUtf16ZReadsBytes(buf, off + 2);
      assert s == [unit] + s[1..];
      assert Utf16Bytes(s) == [unit % 0x100, unit / 0x100] + Utf16Bytes(s[1..]);
      assert buf[off..next] == buf[off..off + 2] + buf[off + 2..next];
    }
  }

  /** The string reader inverts the writer: a NUL-free string followed by a terminator reads back whole. */
  lemma {:induction false} ReadUtf16ZOfUtf16Bytes(pre: seq<byte>, s: WString, post: seq<byte>)
    requires NoNul(s)
    ensures ReadUtf16Z(pre + Utf16Bytes(s) + [0, 0] + post, |pre|) == Some((s, |pre| + 2 * |s| + 2))
    decreases |s|
  {
    var buf := pre + Utf16Bytes(s) + [0, 0] + post;
    if s == [] {
      assert buf[|pre|] == 0 && buf[|pre| + 1] == 0;
    } else {
      var pre' := pre + [s[0] % 0x100, s[0] / 0x100];
      assert Utf16Bytes(s) == [s[0] % 0x100, s[0] / 0x100] + Utf16Bytes(s[1..]);
      assert buf == pre' + Utf16Bytes(s[1..]) + [0, 0] + post;
      assert buf[|pre|] == s[0] % 0x100 && buf[|pre| + 1] == s[0] / 0x100;
      assert ReadU16(buf, |pre|) == Some(s[0]);
      ReadUtf16ZOfUtf16Bytes(pre', s[1..], post);
      assert [s[0]] + s[1..] == s;
    }
  }

  /** A string followed by its terminator. */
  function Utf16Z(s: WString): (r: seq<byte>)
    ensures |r| == 2 * |s| + 2
  {
    Utf16Bytes(s) + [0, 0]
  }

  /** The string reader finds a terminated string wherever its bytes sit in the buffer. */
  lemma {:induction false} ReadUtf16ZAt(buf: seq<byte>, off: nat, s: WString)
    requires NoNul(s)
    requires At(buf, off, Utf16Z(s))
    ensures ReadUtf16Z(buf, off) == Some((s, off + 2 * |s| + 2))
    decreases |s|
  {
    var z := Utf16Z(s);
    if s == [] {
      assert buf[off + 0] == z[0] && buf[off + 1] == z[1];
    } else {
      assert buf[off + 0] == z[0] && buf[off + 1] == z[1];
      assert ReadU16(buf, off) == Some(s[0]);
      forall i | 0 <= i < |Utf16Z(s[1..])| ensures buf[off + 2 + i] == Utf16Z(s[1..])[i] {
        assert buf[off + (i + 2)] == z[i + 2];
      }
      ReadUtf16ZAt(buf, off + 2, s[1..]);
      assert [s[0]] + s[1..] == s;
    }
  }}
