/**
 * DFS_REFERRAL_V1 to V3 records (sections 2.2.5.1 to 2.2.5.3 of MS-DFSC) as
 * the client decodes them: the common 8-byte header, then the
 * version-specific body read at the same record offset.
 */
module Referrals {
  import opened Wrappers
  import opened Text
  import opened LittleEndian

  /** Every version's body starts this far past the record start. */
  const BaseOffset: nat := 8

  /** ReferralEntryFlags. */
  const NameListReferral: nat := 0x02
  const TargetSetBoundary: nat := 0x04

  /** ReferralServerTypeFlags. */
  const ServerTypeLink: nat := 0
  const ServerTypeRoot: nat := 1

  /** Why decoding threw. */
  datatype DecodeError =
    | OutOfRange                          // a reader ran past the end of the buffer
    | UnsupportedVersion(version: uint16) // ReadReferral's default case
    | NullExpandedNames                   // Add on the never-created ExpandedNames list

  /**
   * A decoded DfsReferral. The header fields are the wire u16s; `ttl` is the
   * inherited Ttl, `timeToLive` the v3 field; None is a string left null.
   */
  datatype DfsReferral = DfsReferral(
    versionNumber: uint16,
    size: uint16,
    serverType: uint16,
    referralEntryFlags: uint16,
    ttl: int,
    timeToLive: nat,
    path: Option<WString>,
    dfsPath: Option<WString>,
    dfsAlternatePath: Option<WString>,
    specialName: Option<WString>,
    expandedNames: seq<WString>)

  predicate IsNameList(r: DfsReferral) {
    BitSet(r.referralEntryFlags, NameListReferral)
  }

  function Need<T>(o: Option<T>): Result<T, DecodeError> {
    if o.Some? then Success(o.value) else Failure(OutOfRange)
  }

  /** ReadNullTerminatedUTF16String without the cursor. */
  function ReadString(buf: seq<byte>, off: nat): Result<WString, DecodeError> {
    var read :- Need(ReadUtf16Z(buf, off));
    Success(read.0)
  }

  lemma ReadStringAt(buf: seq<byte>, off: nat, s: WString)
    requires NoNul(s) && At(buf, off, Utf16Z(s))
    ensures ReadString(buf, off) == Success(s)
  {
    ReadUtf16ZAt(buf, off, s);
  }

  /**
   * DfsReferral.Read up to the ReadProc call: the four header u16s at +0,
   * +2, +4 and +6, and nothing else set (the base ReadProc reads nothing).
   */
  function ReadHeader(buf: seq<byte>, offset: nat): Result<DfsReferral, DecodeError> {
    var version :- Need(ReadU16(buf, offset));
    var size :- Need(ReadU16(buf, offset + 2));
    var serverType :- Need(ReadU16(buf, offset + 4));
    var flags :- Need(ReadU16(buf, offset + 6));
    Success(DfsReferral(version, size, serverType, flags, 0, 0, None, None, None, None, []))
  }

  /** DfsReferralV1.ReadProc: the network path at +8. */
  function ReadProcV1(buf: seq<byte>, offset: nat, r: DfsReferral): (r': Result<DfsReferral, DecodeError>)
    ensures r'.Success? ==> r'.value == r.(path := r'.value.path) && r'.value.path.Some?
    ensures r'.Failure? ==> r'.error == OutOfRange
  {
    var path :- ReadString(buf, offset + BaseOffset);
    Success(r.(path := Some(path)))
  }

  /**
   * DfsReferralV2.ReadProc: proximity (discarded) at +8, Ttl at +12 through
   * the int cast, three u16 offsets at +16, +18, +20, each string read at the
   * record start plus its offset.
   */
  function ReadProcV2(buf: seq<byte>, offset: nat, r: DfsReferral): (r': Result<DfsReferral, DecodeError>)
    ensures r'.Success? ==>
      && r'.value == r.(ttl := r'.value.ttl, path := r'.value.path, dfsPath := r'.value.dfsPath, dfsAlternatePath := r'.value.dfsAlternatePath)
      && r'.value.path.Some? && r'.value.dfsPath.Some? && r'.value.dfsAlternatePath.Some?
    ensures r'.Failure? ==> r'.error == OutOfRange
  {
    var proximity :- Need(ReadU32(buf, offset + BaseOffset));
    var ttl :- Need(ReadU32(buf, offset + BaseOffset + 4));
    var dfsPathOffset :- Need(ReadU16(buf, offset + BaseOffset + 8));
    var dfsAlternatePathOffset :- Need(ReadU16(buf, offset + BaseOffset + 10));
    var networkAddressOffset :- Need(ReadU16(buf, offset + BaseOffset + 12));
    var dfsPath :- ReadString(buf, offset + dfsPathOffset);
    var dfsAlternatePath :- ReadString(buf, offset + dfsAlternatePathOffset);
    var path :- ReadString(buf, offset + networkAddressOffset);
    Success(r.(ttl := ToInt32(ttl), dfsPath := Some(dfsPath), dfsAlternatePath := Some(dfsAlternatePath), path := Some(path)))
  }

  /**
   * The expanded names of a name-list referral: `count` strings read back to
   * back from the absolute offset `cursor`, each after the previous one's
   * terminator, collected in order into a list that starts empty.
   */
  function ExpandedNamesAt(buf: seq<byte>, cursor: nat, count: nat): (r: Result<seq<WString>, DecodeError>)
    ensures r.Success? ==> |r.value| == count && forall i :: 0 <= i < count ==> NoNul(r.value[i])
    ensures r.Failure? ==> r.error == OutOfRange
    decreases count
  {
    if count == 0 then Success([])
    else
      match ReadUtf16Z(buf, cursor)
      case None => Failure(OutOfRange)
      case Some((name, next)) => Prepend([name], ExpandedNamesAt(buf, next, count - 1))
  }

  /**
   * DfsReferralV3V4.ReadProc: TimeToLive at +8 (Ttl is left alone). Without
   * the name-list bit, three record-relative offsets at +12, +14, +16 give
   * DfsPath, DfsAlternatePath and Path; with it, +12, +14, +16 hold the
   * special-name offset, the name count and the first name's offset, and
   * both of those offsets are taken from the start of the buffer.
   */
  function ReadProcV3(buf: seq<byte>, offset: nat, r: DfsReferral): (r': Result<DfsReferral, DecodeError>)
    ensures r'.Success? && !IsNameList(r) ==>
      && r'.value == r.(timeToLive := r'.value.timeToLive, path := r'.value.path, dfsPath := r'.value.dfsPath, dfsAlternatePath := r'.value.dfsAlternatePath)
      && r'.value.path.Some? && r'.value.dfsPath.Some? && r'.value.dfsAlternatePath.Some?
    ensures r'.Success? && IsNameList(r) ==>
      && r'.value == r.(timeToLive := r'.value.timeToLive, specialName := r'.value.specialName, expandedNames := r'.value.expandedNames)
      && r'.value.specialName.Some?
    ensures r'.Failure? ==> r'.error == OutOfRange
  {
    var timeToLive :- Need(ReadU32(buf, offset + BaseOffset));
    var r1 := r.(timeToLive := timeToLive);
    if !IsNameList(r) then
      var dfsPathOffset :- Need(ReadU16(buf, offset + BaseOffset + 4));
      var dfsAlternatePathOffset :- Need(ReadU16(buf, offset + BaseOffset + 6));
      var networkAddressOffset :- Need(ReadU16(buf, offset + BaseOffset + 8));
      var dfsPath :- ReadString(buf, offset + dfsPathOffset);
      var dfsAlternatePath :- ReadString(buf, offset + dfsAlternatePathOffset);
      var path :- ReadString(buf, offset + networkAddressOffset);
      Success(r1.(dfsPath := Some(dfsPath), dfsAlternatePath := Some(dfsAlternatePath), path := Some(path)))
    else
      var specialNameOffset :- Need(ReadU16(buf, offset + BaseOffset + 4));
      var numberOfExpandedNames :- Need(ReadU16(buf, offset + BaseOffset + 6));
      var expandedNameOffset :- Need(ReadU16(buf, offset + BaseOffset + 8));
      var specialName :- ReadString(buf, specialNameOffset);
      var names :- ExpandedNamesAt(buf, expandedNameOffset, numberOfExpandedNames);
      Success(r1.(specialName := Some(specialName), expandedNames := names))
  }

  /**
   * ResponseGetDfsReferral.ReadReferral: the version at the record start
   * picks V1, V2 or V3V4 for versions 1, 2 and 3; any other version,
   * 4 included, is refused.
   */
  function DecodeReferral(buf: seq<byte>, offset: nat): (r: Result<DfsReferral, DecodeError>)
    ensures r.Success? ==> r.value.versionNumber in {1, 2, 3}
    ensures r.Success? ==>
      && ReadU16(buf, offset) == Some(r.value.versionNumber as nat)
      && ReadU16(buf, offset + 2) == Some(r.value.size as nat)
      && ReadU16(buf, offset + 4) == Some(r.value.serverType as nat)
      && ReadU16(buf, offset + 6) == Some(r.value.referralEntryFlags as nat)
    ensures (r.Failure? && r.error.UnsupportedVersion?) <==>
      ReadU16(buf, offset).Some? && ReadU16(buf, offset).value !in {1, 2, 3}
    ensures r.Failure? ==> r.error != NullExpandedNames
    ensures r.Success? && r.value.versionNumber == 1 ==>
      r.value.path.Some? && r.value.dfsPath.None? && r.value.dfsAlternatePath.None? && r.value.specialName.None?
      && r.value.ttl == 0 && r.value.timeToLive == 0 && r.value.expandedNames == []
    ensures r.Success? && r.value.versionNumber == 2 ==>
      r.value.path.Some? && r.value.dfsPath.Some? && r.value.dfsAlternatePath.Some?
      && r.value.specialName.None? && r.value.timeToLive == 0 && r.value.expandedNames == []
    ensures r.Success? && r.value.versionNumber == 3 ==> r.value.ttl == 0
    ensures r.Success? && r.value.versionNumber == 3 && !IsNameList(r.value) ==>
      r.value.path.Some? && r.value.dfsPath.Some? && r.value.dfsAlternatePath.Some?
      && r.value.specialName.None? && r.value.expandedNames == []
    ensures r.Success? && r.value.versionNumber == 3 && IsNameList(r.value) ==>
      r.value.path.None? && r.value.dfsPath.None? && r.value.dfsAlternatePath.None? && r.value.specialName.Some?
  {
    var version :- Need(ReadU16(buf, offset));
    if version !in {1, 2, 3} then Failure(UnsupportedVersion(version))
    else
      var header :- ReadHeader(buf, offset);
      if version == 1 then ReadProcV1(buf, offset, header)
      else if version == 2 then ReadProcV2(buf, offset, header)
      else ReadProcV3(buf, offset, header)
  }

  /**
   * The loop of the name-list branch: the `ref` cursor walks the names and
   * each one is appended.
   */
  method ReadExpandedNames(buf: seq<byte>, expandedNameOffset: nat, numberOfExpandedNames: nat)
    returns (r: Result<seq<WString>, DecodeError>)
    ensures r == ExpandedNamesAt(buf, expandedNameOffset, numberOfExpandedNames)
  {
    var names: seq<WString> := [];
    var cursor := expandedNameOffset;
    PrependNothing(ExpandedNamesAt(buf, cursor, numberOfExpandedNames));
    for i := 0 to numberOfExpandedNames
      invariant ExpandedNamesAt(buf, expandedNameOffset, numberOfExpandedNames)
             == Prepend(names, ExpandedNamesAt(buf, cursor, numberOfExpandedNames - i))
    {
      var read := ReadUtf16Z(buf, cursor);
      if read.None? {
        return Failure(OutOfRange);
      }
      var rest := ExpandedNamesAt(buf, read.value.1, numberOfExpandedNames - i - 1);
      PrependTwice(names, [read.value.0], rest);
      names := names + [read.value.0];
      cursor := read.value.1;
    }
    assert names + [] == names;
    return Success(names);
  }

  /** ReadReferral followed by Read: header, then the version's ReadProc, the name list through its loop. */
  method ReadReferral(buf: seq<byte>, offset: nat) returns (r: Result<DfsReferral, DecodeError>)
    ensures r == DecodeReferral(buf, offset)
  {
    var version := ReadU16(buf, offset);
    if version.None? {
      return Failure(OutOfRange);
    }
    if version.value !in {1, 2, 3} {
      return Failure(UnsupportedVersion(version.value));
    }
    var header := ReadHeader(buf, offset);
    if header.Failure? {
      return header;
    }
    var referral := header.value;
    if version.value == 1 {
      r := ReadProcV1(buf, offset, referral);
    } else if version.value == 2 {
      r := ReadProcV2(buf, offset, referral);
    } else if !IsNameList(referral) {
      r := ReadProcV3(buf, offset, referral);
    } else {
      var timeToLive := ReadU32(buf, offset + BaseOffset);
      var specialNameOffset := ReadU16(buf, offset + BaseOffset + 4);
      var numberOfExpandedNames := ReadU16(buf, offset + BaseOffset + 6);
      var expandedNameOffset := ReadU16(buf, offset + BaseOffset + 8);
      if timeToLive.None? || specialNameOffset.None? || numberOfExpandedNames.None? || expandedNameOffset.None? {
        return Failure(OutOfRange);
      }
      var specialName := ReadString(buf, specialNameOffset.value);
      if specialName.Failure? {
        return Failure(OutOfRange);
      }
      var names := ReadExpandedNames(buf, expandedNameOffset.value, numberOfExpandedNames.value);
      if names.Failure? {
        return Failure(names.error);
      }
      r := Success(referral.(timeToLive := timeToLive.value, specialName := Some(specialName.value), expandedNames := names.value));
    }
  }

  // ---------------------------------------------------------------------
  // The name-list loop as written: ExpandedNames is never created, so the
  // first Add dereferences null.

  /**
   * The name-list loop with a list that is still null: no names leave it
   * null, and the first name that reads faults on Add.
   */
  function ReadNameListAsWritten(buf: seq<byte>, expandedNameOffset: nat, numberOfExpandedNames: nat)
    : (r: Result<Option<seq<WString>>, DecodeError>)
    ensures r.Success? ==> numberOfExpandedNames == 0
  {
    if numberOfExpandedNames == 0 then Success(None)
    else
      match ReadUtf16Z(buf, expandedNameOffset)
      case None => Failure(OutOfRange)
      case Some(_) => Failure(NullExpandedNames)
  }

  /**
   * As written, a name list never yields a name, and a well-formed list with
   * at least one name always faults; the corrected reader returns those names.
   */
  lemma NameListAsWrittenNeverYieldsNames(pre: seq<byte>, names: seq<WString>, post: seq<byte>)
    requires names != []
    requires forall i :: 0 <= i < |names| ==> NoNul(names[i])
    ensures forall off: nat, n: nat :: ReadNameListAsWritten(pre + Utf16ZList(names) + post, off, n) != Success(Some(names))
    ensures ReadNameListAsWritten(pre + Utf16ZList(names) + post, |pre|, |names|) == Failure(NullExpandedNames)
    ensures ExpandedNamesAt(pre + Utf16ZList(names) + post, |pre|, |names|) == Success(names)
  {
    ExpandedNamesOfEncoding(pre, names, post);
    var buf := pre + Utf16ZList(names) + post;
    AtMiddle(pre, Utf16ZList(names), post);
    AtConcat(buf, |pre|, Utf16Z(names[0]), Utf16ZList(names[1..]));
    ReadUtf16ZAt(buf, |pre|, names[0]);
  }

  // ---------------------------------------------------------------------
  // Reference encoders: one wire layout per record kind, and the decoder
  // reading each back.

  /** Names written back to back, each with its terminator. */
  function Utf16ZList(names: seq<WString>): (r: seq<byte>)
    ensures names != [] ==> |r| >= 2
  {
    if names == [] then [] else Utf16Z(names[0]) + Utf16ZList(names[1..])
  }

  /** The expanded-name reader inverts the list writer, at any position. */
  lemma {:induction false} ExpandedNamesAtEncoding(buf: seq<byte>, off: nat, names: seq<WString>)
    requires forall i :: 0 <= i < |names| ==> NoNul(names[i])
    requires At(buf, off, Utf16ZList(names))
    ensures ExpandedNamesAt(buf, off, |names|) == Success(names)
    decreases |names|
  {
    if names != [] {
      var first := Utf16Z(names[0]);
      var next := off + |first|;
      AtConcat(buf, off, first, Utf16ZList(names[1..]));
      ReadUtf16ZAt(buf, off, names[0]);
      ExpandedNamesAtEncoding(buf, next, names[1..]);
      assert ExpandedNamesAt(buf, off, |names|) == Prepend([names[0]], ExpandedNamesAt(buf, next, |names| - 1));
      assert [names[0]] + names[1..] == names;
    }
  }

  lemma ExpandedNamesOfEncoding(pre: seq<byte>, names: seq<WString>, post: seq<byte>)
    requires forall i :: 0 <= i < |names| ==> NoNul(names[i])
    ensures ExpandedNamesAt(pre + Utf16ZList(names) + post, |pre|, |names|) == Success(names)
  {
    AtMiddle(pre, Utf16ZList(names), post);
    ExpandedNamesAtEncoding(pre + Utf16ZList(names) + post, |pre|, names);
  }

  function HeaderBytes(version: uint16, size: uint16, serverType: uint16, flags: uint16): (r: seq<byte>)
    ensures |r| == 8
  {
    U16Bytes(version) + U16Bytes(size) + U16Bytes(serverType) + U16Bytes(flags)
  }

  lemma ReadHeaderAt(buf: seq<byte>, offset: nat, version: uint16, size: uint16, serverType: uint16, flags: uint16)
    requires At(buf, offset, HeaderBytes(version, size, serverType, flags))
    ensures ReadHeader(buf, offset) == Success(DfsReferral(version, size, serverType, flags, 0, 0, None, None, None, None, []))
  {
    var a, b, c, d := U16Bytes(version), U16Bytes(size), U16Bytes(serverType), U16Bytes(flags);
    AtConcat(buf, offset, a + b + c, d);
    AtConcat(buf, offset, a + b, c);
    AtConcat(buf, offset, a, b);
    ReadU16At(buf, offset, version);
    ReadU16At(buf, offset + 2, size);
    ReadU16At(buf, offset + 4, serverType);
    ReadU16At(buf, offset + 6, flags);
  }

  /** ReadProcV2 when each of its reads succeeds. */
  lemma ReadProcV2Reads(buf: seq<byte>, o: nat, r: DfsReferral, proximity: nat, ttl: nat, o1: nat, o2: nat, o3: nat,
                        dfsPath: WString, dfsAlternatePath: WString, path: WString)
    requires ReadU32(buf, o + 8) == Some(proximity) && ReadU32(buf, o + 12) == Some(ttl)
    requires ReadU16(buf, o + 16) == Some(o1) && ReadU16(buf, o + 18) == Some(o2) && ReadU16(buf, o + 20) == Some(o3)
    requires ReadString(buf, o + o1) == Success(dfsPath)
    requires ReadString(buf, o + o2) == Success(dfsAlternatePath)
    requires ReadString(buf, o + o3) == Success(path)
    ensures ttl < 0x1_0000_0000
    ensures ReadProcV2(buf, o, r) == Success(r.(ttl := ToInt32(ttl), dfsPath := Some(dfsPath), dfsAlternatePath := Some(dfsAlternatePath), path := Some(path)))
  {
  }

  /** ReadProcV3 without the name-list bit when each of its reads succeeds. */
  lemma ReadProcV3Reads(buf: seq<byte>, o: nat, r: DfsReferral, timeToLive: nat, o1: nat, o2: nat, o3: nat,
                        dfsPath: WString, dfsAlternatePath: WString, path: WString)
    requires !IsNameList(r)
    requires ReadU32(buf, o + 8) == Some(timeToLive)
    requires ReadU16(buf, o + 12) == Some(o1) && ReadU16(buf, o + 14) == Some(o2) && ReadU16(buf, o + 16) == Some(o3)
    requires ReadString(buf, o + o1) == Success(dfsPath)
    requires ReadString(buf, o + o2) == Success(dfsAlternatePath)
    requires ReadString(buf, o + o3) == Success(path)
    ensures ReadProcV3(buf, o, r) == Success(r.(timeToLive := timeToLive, dfsPath := Some(dfsPath), dfsAlternatePath := Some(dfsAlternatePath), path := Some(path)))
  {
  }

  /** ReadProcV3 with the name-list bit when each of its reads succeeds. */
  lemma ReadProcV3NameListReads(buf: seq<byte>, o: nat, r: DfsReferral, timeToLive: nat, specialAt: nat, count: nat, namesAt: nat,
                                specialName: WString, names: seq<WString>)
    requires IsNameList(r)
    requires ReadU32(buf, o + 8) == Some(timeToLive)
    requires ReadU16(buf, o + 12) == Some(specialAt) && ReadU16(buf, o + 14) == Some(count) && ReadU16(buf, o + 16) == Some(namesAt)
    requires ReadString(buf, specialAt) == Success(specialName)
    requires ExpandedNamesAt(buf, namesAt, count) == Success(names)
    ensures ReadProcV3(buf, o, r) == Success(r.(timeToLive := timeToLive, specialName := Some(specialName), expandedNames := names))
  {
  }

  /** DecodeReferral once the version and the header have been read. */
  lemma DecodeReferralOfHeader(buf: seq<byte>, o: nat, h: DfsReferral)
    requires h.versionNumber in {1, 2, 3}
    requires ReadU16(buf, o) == Some(h.versionNumber as nat)
    requires ReadHeader(buf, o) == Success(h)
    ensures DecodeReferral(buf, o) == if h.versionNumber == 1 then ReadProcV1(buf, o, h)
                                      else if h.versionNumber == 2 then ReadProcV2(buf, o, h)
                                      else ReadProcV3(buf, o, h)
  {
  }

  /** A v1 record: header, then the path. */
  function EncodeV1(size: uint16, serverType: uint16, flags: uint16, path: WString): seq<byte> {
    HeaderBytes(1, size, serverType, flags) + Utf16Z(path)
  }

  lemma DecodeV1OfEncoding(pre: seq<byte>, size: uint16, serverType: uint16, flags: uint16, path: WString, post: seq<byte>)
    requires NoNul(path)
    ensures DecodeReferral(pre + EncodeV1(size, serverType, flags, path) + post, |pre|)
         == Success(DfsReferral(1, size, serverType, flags, 0, 0, Some(path), None, None, None, []))
  {
    var buf := pre + EncodeV1(size, serverType, flags, path) + post;
    AtMiddle(pre, EncodeV1(size, serverType, flags, path), post);
    AtConcat(buf, |pre|, HeaderBytes(1, size, serverType, flags), Utf16Z(path));
    ReadHeaderAt(buf, |pre|, 1, size, serverType, flags);
    ReadUtf16ZAt(buf, |pre| + 8, path);
  }

  /** Three terminated strings back to back. */
  function Strings3(a: WString, b: WString, c: WString): (r: seq<byte>)
    ensures |r| == 2 * |a| + 2 + 2 * |b| + 2 + 2 * |c| + 2
  {
    Utf16Z(a) + (Utf16Z(b) + Utf16Z(c))
  }

  /** A terminated string reads back, and what follows it starts at `next`, right after its terminator. */
  lemma ReadStringThen(buf: seq<byte>, at: nat, next: nat, s: WString, rest: seq<byte>)
    requires NoNul(s) && At(buf, at, Utf16Z(s) + rest) && next == at + 2 * |s| + 2
    ensures ReadString(buf, at) == Success(s)
    ensures At(buf, next, rest)
  {
    AtConcat(buf, at, Utf16Z(s), rest);
    ReadStringAt(buf, at, s);
  }

  /** Three strings written back to back `o1` bytes into a record at `base` read back at their offsets. */
  lemma ReadStrings3(buf: seq<byte>, base: nat, o1: nat, a: WString, b: WString, c: WString)
    requires NoNul(a) && NoNul(b) && NoNul(c)
    requires At(buf, base + o1, Strings3(a, b, c))
    ensures ReadString(buf, base + o1) == Success(a)
    ensures ReadString(buf, base + (o1 + 2 * |a| + 2)) == Success(b)
    ensures ReadString(buf, base + (o1 + 2 * |a| + 2 + 2 * |b| + 2)) == Success(c)
  {
    ReadStringThen(buf, base + o1, base + (o1 + 2 * |a| + 2), a, Utf16Z(b) + Utf16Z(c));
    ReadStringThen(buf, base + (o1 + 2 * |a| + 2), base + (o1 + 2 * |a| + 2 + 2 * |b| + 2), b, Utf16Z(c));
    ReadStringAt(buf, base + (o1 + 2 * |a| + 2 + 2 * |b| + 2), c);
  }

  /** Six fields written one after another each sit at the sum of the lengths before them. */
  lemma AtFields6(buf: seq<byte>, o: nat, a: seq<byte>, b: seq<byte>, c: seq<byte>, d: seq<byte>, e: seq<byte>, f: seq<byte>)
    requires At(buf, o, a + b + c + d + e + f)
    ensures At(buf, o, a) && At(buf, o + |a|, b) && At(buf, o + |a| + |b|, c)
    ensures At(buf, o + |a| + |b| + |c|, d) && At(buf, o + |a| + |b| + |c| + |d|, e)
    ensures At(buf, o + |a| + |b| + |c| + |d| + |e|, f)
  {
    AtConcat(buf, o, a + b + c + d + e, f);
    AtConcat(buf, o, a + b + c + d, e);
    AtConcat(buf, o, a + b + c, d);
    AtConcat(buf, o, a + b, c);
    AtConcat(buf, o, a, b);
  }

  /** The offsets of three strings placed right after a fixed part of `fixed` bytes fit a u16. */
  predicate OffsetsFit(fixed: nat, a: WString, b: WString) {
    fixed + 2 * |a| + 2 + 2 * |b| + 2 < 0x1_0000
  }

  /** The fixed part of a v2 record: header, proximity, TTL and three record-relative offsets. */
  function V2Fixed(size: uint16, serverType: uint16, flags: uint16, proximity: nat, ttl: nat, o2: nat, o3: nat): (r: seq<byte>)
    requires proximity < 0x1_0000_0000 && ttl < 0x1_0000_0000 && o2 < 0x1_0000 && o3 < 0x1_0000
    ensures |r| == 22
  {
    HeaderBytes(2, size, serverType, flags) + U32Bytes(proximity) + U32Bytes(ttl)
      + U16Bytes(22) + U16Bytes(o2) + U16Bytes(o3)
  }

  /** A v2 record: the fixed part, then the three strings its offsets point at. */
  function EncodeV2(size: uint16, serverType: uint16, flags: uint16, proximity: nat, ttl: nat,
                    dfsPath: WString, dfsAlternatePath: WString, path: WString): seq<byte>
    requires proximity < 0x1_0000_0000 && ttl < 0x1_0000_0000
    requires OffsetsFit(22, dfsPath, dfsAlternatePath)
  {
    var o2 := 22 + 2 * |dfsPath| + 2;
    var o3 := o2 + 2 * |dfsAlternatePath| + 2;
    V2Fixed(size, serverType, flags, proximity, ttl, o2, o3) + Strings3(dfsPath, dfsAlternatePath, path)
  }

  /** Where the decoder finds the fixed fields of a v2 record. */
  lemma V2FixedFieldsAt(buf: seq<byte>, o: nat, size: uint16, serverType: uint16, flags: uint16, proximity: nat, ttl: nat,
                        o2: nat, o3: nat)
    requires proximity < 0x1_0000_0000 && ttl < 0x1_0000_0000 && o2 < 0x1_0000 && o3 < 0x1_0000
    requires At(buf, o, V2Fixed(size, serverType, flags, proximity, ttl, o2, o3))
    ensures ReadU16(buf, o) == Some(2)
    ensures ReadHeader(buf, o) == Success(DfsReferral(2, size, serverType, flags, 0, 0, None, None, None, None, []))
    ensures ReadU32(buf, o + 8) == Some(proximity) && ReadU32(buf, o + 12) == Some(ttl)
    ensures ReadU16(buf, o + 16) == Some(22) && ReadU16(buf, o + 18) == Some(o2) && ReadU16(buf, o + 20) == Some(o3)
  {
    var h, p, t := HeaderBytes(2, size, serverType, flags), U32Bytes(proximity), U32Bytes(ttl);
    var u1, u2, u3 := U16Bytes(22), U16Bytes(o2), U16Bytes(o3);
    AtFields6(buf, o, h, p, t, u1, u2, u3);
    ReadHeaderAt(buf, o, 2, size, serverType, flags);
    ReadU32At(buf, o + 8, proximity);
    ReadU32At(buf, o + 12, ttl);
    ReadU16At(buf, o + 16, 22);
    ReadU16At(buf, o + 18, o2);
    ReadU16At(buf, o + 20, o3);
  }

  /** DecodeReferral on a v2 record once each of its fields reads back. */
  lemma DecodeV2Reads(buf: seq<byte>, o: nat, size: uint16, serverType: uint16, flags: uint16, proximity: nat, ttl: nat,
                      o2: nat, o3: nat, dfsPath: WString, dfsAlternatePath: WString, path: WString)
    requires ReadU16(buf, o) == Some(2)
    requires ReadHeader(buf, o) == Success(DfsReferral(2, size, serverType, flags, 0, 0, None, None, None, None, []))
    requires ReadU32(buf, o + 8) == Some(proximity) && ReadU32(buf, o + 12) == Some(ttl)
    requires ReadU16(buf, o + 16) == Some(22) && ReadU16(buf, o + 18) == Some(o2) && ReadU16(buf, o + 20) == Some(o3)
    requires ReadString(buf, o + 22) == Success(dfsPath)
    requires ReadString(buf, o + o2) == Success(dfsAlternatePath)
    requires ReadString(buf, o + o3) == Success(path)
    ensures ttl < 0x1_0000_0000
    ensures DecodeReferral(buf, o)
         == Success(DfsReferral(2, size, serverType, flags, ToInt32(ttl), 0, Some(path), Some(dfsPath), Some(dfsAlternatePath), None, []))
  {
    var hdr := DfsReferral(2, size, serverType, flags, 0, 0, None, None, None, None, []);
    ReadProcV2Reads(buf, o, hdr, proximity, ttl, 22, o2, o3, dfsPath, dfsAlternatePath, path);
    DecodeReferralOfHeader(buf, o, hdr);
  }

  /** The decoder reads back a v2 record whose fixed part sits at `o` and whose strings follow it. */
  lemma DecodeV2At(buf: seq<byte>, o: nat, size: uint16, serverType: uint16, flags: uint16, proximity: nat, ttl: nat,
                   dfsPath: WString, dfsAlternatePath: WString, path: WString)
    requires proximity < 0x1_0000_0000 && ttl < 0x1_0000_0000
    requires OffsetsFit(22, dfsPath, dfsAlternatePath)
    requires NoNul(dfsPath) && NoNul(dfsAlternatePath) && NoNul(path)
    requires At(buf, o, V2Fixed(size, serverType, flags, proximity, ttl, 22 + 2 * |dfsPath| + 2,
                                22 + 2 * |dfsPath| + 2 + 2 * |dfsAlternatePath| + 2))
    requires At(buf, o + 22, Strings3(dfsPath, dfsAlternatePath, path))
    ensures DecodeReferral(buf, o)
         == Success(DfsReferral(2, size, serverType, flags, ToInt32(ttl), 0, Some(path), Some(dfsPath), Some(dfsAlternatePath), None, []))
  {
    var o2 := 22 + 2 * |dfsPath| + 2;
    var o3 := o2 + 2 * |dfsAlternatePath| + 2;
    V2FixedFieldsAt(buf, o, size, serverType, flags, proximity, ttl, o2, o3);
    ReadStrings3(buf, o, 22, dfsPath, dfsAlternatePath, path);
    DecodeV2Reads(buf, o, size, serverType, flags, proximity, ttl, o2, o3, dfsPath, dfsAlternatePath, path);
  }

  lemma DecodeV2OfEncoding(pre: seq<byte>, size: uint16, serverType: uint16, flags: uint16, proximity: nat, ttl: nat,
                           dfsPath: WString, dfsAlternatePath: WString, path: WString, post: seq<byte>)
    requires proximity < 0x1_0000_0000 && ttl < 0x1_0000_0000
    requires OffsetsFit(22, dfsPath, dfsAlternatePath)
    requires NoNul(dfsPath) && NoNul(dfsAlternatePath) && NoNul(path)
    ensures DecodeReferral(pre + EncodeV2(size, serverType, flags, proximity, ttl, dfsPath, dfsAlternatePath, path) + post, |pre|)
         == Success(DfsReferral(2, size, serverType, flags, ToInt32(ttl), 0, Some(path), Some(dfsPath), Some(dfsAlternatePath), None, []))
  {
    var o2 := 22 + 2 * |dfsPath| + 2;
    var o3 := o2 + 2 * |dfsAlternatePath| + 2;
    var fixed, strs := V2Fixed(size, serverType, flags, proximity, ttl, o2, o3), Strings3(dfsPath, dfsAlternatePath, path);
    AtMiddle(pre, fixed + strs, post);
    AtConcat(pre + (fixed + strs) + post, |pre|, fixed, strs);
    DecodeV2At(pre + (fixed + strs) + post, |pre|, size, serverType, flags, proximity, ttl, dfsPath, dfsAlternatePath, path);
  }

  /** A v3 record without the name-list bit: header, TimeToLive, three offsets, then the three strings. */
  function EncodeV3(size: uint16, serverType: uint16, flags: uint16, timeToLive: nat,
                    dfsPath: WString, dfsAlternatePath: WString, path: WString): seq<byte>
    requires timeToLive < 0x1_0000_0000
    requires OffsetsFit(18, dfsPath, dfsAlternatePath)
  {
    var o2 := 18 + 2 * |dfsPath| + 2;
    var o3 := o2 + 2 * |dfsAlternatePath| + 2;
    HeaderBytes(3, size, serverType, flags) + U32Bytes(timeToLive)
      + U16Bytes(18) + U16Bytes(o2) + U16Bytes(o3) + Strings3(dfsPath, dfsAlternatePath, path)
  }

  /** Where the decoder finds the fixed fields of EncodeV3's layout. */
  lemma V3FixedFieldsAt(buf: seq<byte>, o: nat, size: uint16, serverType: uint16, flags: uint16, timeToLive: nat,
                        dfsPath: WString, dfsAlternatePath: WString, path: WString)
    requires timeToLive < 0x1_0000_0000
    requires OffsetsFit(18, dfsPath, dfsAlternatePath)
    requires At(buf, o, EncodeV3(size, serverType, flags, timeToLive, dfsPath, dfsAlternatePath, path))
    ensures ReadU16(buf, o) == Some(3)
    ensures ReadHeader(buf, o) == Success(DfsReferral(3, size, serverType, flags, 0, 0, None, None, None, None, []))
    ensures ReadU32(buf, o + 8) == Some(timeToLive)
    ensures ReadU16(buf, o + 12) == Some(18)
    ensures ReadU16(buf, o + 14) == Some(18 + 2 * |dfsPath| + 2)
    ensures ReadU16(buf, o + 16) == Some(18 + 2 * |dfsPath| + 2 + 2 * |dfsAlternatePath| + 2)
  {
    var o2 := 18 + 2 * |dfsPath| + 2;
    var o3 := o2 + 2 * |dfsAlternatePath| + 2;
    var h, t := HeaderBytes(3, size, serverType, flags), U32Bytes(timeToLive);
    var u1, u2, u3 := U16Bytes(18), U16Bytes(o2), U16Bytes(o3);
    AtFields6(buf, o, h, t, u1, u2, u3, Strings3(dfsPath, dfsAlternatePath, path));
    ReadHeaderAt(buf, o, 3, size, serverType, flags);
    ReadU32At(buf, o + 8, timeToLive);
    ReadU16At(buf, o + 12, 18);
    ReadU16At(buf, o + 14, o2);
    ReadU16At(buf, o + 16, o3);
  }

  /** The three strings of EncodeV3's layout sit where its offsets say. */
  lemma V3StringsAt(buf: seq<byte>, o: nat, size: uint16, serverType: uint16, flags: uint16, timeToLive: nat,
                    dfsPath: WString, dfsAlternatePath: WString, path: WString)
    requires timeToLive < 0x1_0000_0000
    requires OffsetsFit(18, dfsPath, dfsAlternatePath)
    requires NoNul(dfsPath) && NoNul(dfsAlternatePath) && NoNul(path)
    requires At(buf, o, EncodeV3(size, serverType, flags, timeToLive, dfsPath, dfsAlternatePath, path))
    ensures ReadString(buf, o + 18) == Success(dfsPath)
    ensures ReadString(buf, o + 18 + 2 * |dfsPath| + 2) == Success(dfsAlternatePath)
    ensures ReadString(buf, o + 18 + 2 * |dfsPath| + 2 + 2 * |dfsAlternatePath| + 2) == Success(path)
  {
    var o2 := 18 + 2 * |dfsPath| + 2;
    var o3 := o2 + 2 * |dfsAlternatePath| + 2;
    var fixed := HeaderBytes(3, size, serverType, flags) + U32Bytes(timeToLive)
                 + U16Bytes(18) + U16Bytes(o2) + U16Bytes(o3);
    AtConcat(buf, o, fixed, Strings3(dfsPath, dfsAlternatePath, path));
    ReadStrings3(buf, o, 18, dfsPath, dfsAlternatePath, path);
  }

  lemma DecodeV3At(buf: seq<byte>, o: nat, size: uint16, serverType: uint16, flags: uint16, timeToLive: nat,
                   dfsPath: WString, dfsAlternatePath: WString, path: WString)
    requires !BitSet(flags, NameListReferral)
    requires timeToLive < 0x1_0000_0000
    requires OffsetsFit(18, dfsPath, dfsAlternatePath)
    requires NoNul(dfsPath) && NoNul(dfsAlternatePath) && NoNul(path)
    requires At(buf, o, EncodeV3(size, serverType, flags, timeToLive, dfsPath, dfsAlternatePath, path))
    ensures DecodeReferral(buf, o)
         == Success(DfsReferral(3, size, serverType, flags, 0, timeToLive, Some(path), Some(dfsPath), Some(dfsAlternatePath), None, []))
  {
    var o2 := 18 + 2 * |dfsPath| + 2;
    var o3 := o2 + 2 * |dfsAlternatePath| + 2;
    V3FixedFieldsAt(buf, o, size, serverType, flags, timeToLive, dfsPath, dfsAlternatePath, path);
    V3StringsAt(buf, o, size, serverType, flags, timeToLive, dfsPath, dfsAlternatePath, path);
    var hdr := DfsReferral(3, size, serverType, flags, 0, 0, None, None, None, None, []);
    ReadProcV3Reads(buf, o, hdr, timeToLive, 18, o2, o3, dfsPath, dfsAlternatePath, path);
    DecodeReferralOfHeader(buf, o, hdr);
  }

  /** The decoder reads back a v3 record written anywhere in a buffer. */
  lemma DecodeV3OfEncoding(pre: seq<byte>, size: uint16, serverType: uint16, flags: uint16, timeToLive: nat,
                           dfsPath: WString, dfsAlternatePath: WString, path: WString, post: seq<byte>)
    requires !BitSet(flags, NameListReferral)
    requires timeToLive < 0x1_0000_0000
    requires OffsetsFit(18, dfsPath, dfsAlternatePath)
    requires NoNul(dfsPath) && NoNul(dfsAlternatePath) && NoNul(path)
    ensures DecodeReferral(pre + EncodeV3(size, serverType, flags, timeToLive, dfsPath, dfsAlternatePath, path) + post, |pre|)
         == Success(DfsReferral(3, size, serverType, flags, 0, timeToLive, Some(path), Some(dfsPath), Some(dfsAlternatePath), None, []))
  {
    var rec := EncodeV3(size, serverType, flags, timeToLive, dfsPath, dfsAlternatePath, path);
    AtMiddle(pre, rec, post);
    DecodeV3At(pre + rec + post, |pre|, size, serverType, flags, timeToLive, dfsPath, dfsAlternatePath, path);
  }

  /**
   * A v3 name-list record that starts `at` bytes into the buffer: header,
   * TimeToLive, the special name's offset, the count and the first expanded
   * name's offset, then the special name and the expanded names. The two
   * offsets are written from the buffer start, as the decoder reads them.
   */
  function EncodeV3NameList(at: nat, size: uint16, serverType: uint16, flags: uint16, timeToLive: nat,
                            specialName: WString, names: seq<WString>): seq<byte>
    requires timeToLive < 0x1_0000_0000
    requires at + 18 + 2 * |specialName| + 2 < 0x1_0000 && |names| < 0x1_0000
  {
    var specialAt := at + 18;
    var namesAt := specialAt + 2 * |specialName| + 2;
    HeaderBytes(3, size, serverType, flags) + U32Bytes(timeToLive)
      + U16Bytes(specialAt) + U16Bytes(|names|) + U16Bytes(namesAt) + Utf16Z(specialName) + Utf16ZList(names)
  }

  /** Where the decoder finds each field of EncodeV3NameList's layout. */
  lemma V3NameListFieldsAt(buf: seq<byte>, o: nat, size: uint16, serverType: uint16, flags: uint16, timeToLive: nat,
                           specialName: WString, names: seq<WString>)
    requires timeToLive < 0x1_0000_0000
    requires o + 18 + 2 * |specialName| + 2 < 0x1_0000 && |names| < 0x1_0000
    requires NoNul(specialName) && forall i :: 0 <= i < |names| ==> NoNul(names[i])
    requires At(buf, o, EncodeV3NameList(o, size, serverType, flags, timeToLive, specialName, names))
    ensures ReadU16(buf, o) == Some(3)
    ensures ReadHeader(buf, o) == Success(DfsReferral(3, size, serverType, flags, 0, 0, None, None, None, None, []))
    ensures ReadU32(buf, o + 8) == Some(timeToLive)
    ensures ReadU16(buf, o + 12) == Some(o + 18)
    ensures ReadU16(buf, o + 14) == Some(|names|)
    ensures ReadU16(buf, o + 16) == Some(o + 18 + 2 * |specialName| + 2)
    ensures ReadString(buf, o + 18) == Success(specialName)
    ensures ExpandedNamesAt(buf, o + 18 + 2 * |specialName| + 2, |names|) == Success(names)
  {
    var namesAt := o + 18 + 2 * |specialName| + 2;
    var h, t := HeaderBytes(3, size, serverType, flags), U32Bytes(timeToLive);
    var u1, u2, u3 := U16Bytes(o + 18), U16Bytes(|names|), U16Bytes(namesAt);
    var sp, ns := Utf16Z(specialName), Utf16ZList(names);
    AtConcat(buf, o, h + t + u1 + u2 + u3 + sp, ns);
    AtFields6(buf, o, h, t, u1, u2, u3, sp);
    ReadHeaderAt(buf, o, 3, size, serverType, flags);
    ReadU32At(buf, o + 8, timeToLive);
    ReadU16At(buf, o + 12, o + 18);
    ReadU16At(buf, o + 14, |names|);
    ReadU16At(buf, o + 16, namesAt);
    ReadStringAt(buf, o + 18, specialName);
    ExpandedNamesAtEncoding(buf, namesAt, names);
  }

  lemma DecodeV3NameListAt(buf: seq<byte>, o: nat, size: uint16, serverType: uint16, flags: uint16, timeToLive: nat,
                           specialName: WString, names: seq<WString>)
    requires BitSet(flags, NameListReferral)
    requires timeToLive < 0x1_0000_0000
    requires o + 18 + 2 * |specialName| + 2 < 0x1_0000 && |names| < 0x1_0000
    requires NoNul(specialName) && forall i :: 0 <= i < |names| ==> NoNul(names[i])
    requires At(buf, o, EncodeV3NameList(o, size, serverType, flags, timeToLive, specialName, names))
    ensures DecodeReferral(buf, o)
         == Success(DfsReferral(3, size, serverType, flags, 0, timeToLive, None, None, None, Some(specialName), names))
  {
    V3NameListFieldsAt(buf, o, size, serverType, flags, timeToLive, specialName, names);
    var hdr := DfsReferral(3, size, serverType, flags, 0, 0, None, None, None, None, []);
    ReadProcV3NameListReads(buf, o, hdr, timeToLive, o + 18, |names|, o + 18 + 2 * |specialName| + 2, specialName, names);
    DecodeReferralOfHeader(buf, o, hdr);
  }

  /** The decoder reads back a v3 name-list record, whose name offsets count from the buffer start. */
  lemma DecodeV3NameListOfEncoding(pre: seq<byte>, size: uint16, serverType: uint16, flags: uint16, timeToLive: nat,
                                   specialName: WString, names: seq<WString>, post: seq<byte>)
    requires BitSet(flags, NameListReferral)
    requires timeToLive < 0x1_0000_0000
    requires |pre| + 18 + 2 * |specialName| + 2 < 0x1_0000 && |names| < 0x1_0000
    requires NoNul(specialName) && forall i :: 0 <= i < |names| ==> NoNul(names[i])
    ensures DecodeReferral(pre + EncodeV3NameList(|pre|, size, serverType, flags, timeToLive, specialName, names) + post, |pre|)
         == Success(DfsReferral(3, size, serverType, flags, 0, timeToLive, None, None, None, Some(specialName), names))
  {
    var rec := EncodeV3NameList(|pre|, size, serverType, flags, timeToLive, specialName, names);
    AtMiddle(pre, rec, post);
    DecodeV3NameListAt(pre + rec + post, |pre|, size, serverType, flags, timeToLive, specialName, names);
  }
}
