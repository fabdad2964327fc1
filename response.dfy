/**
 * RESP_GET_DFS_REFERRAL (section 2.2.4 of MS-DFSC) as the client reads it:
 * three u16 header fields, then NumberOfReferrals records, each starting
 * where the previous one's Size field says.
 */
module Responses {
  import opened Wrappers
  import opened Text
  import opened LittleEndian
  import opened Referrals

  /** ReferralHeaderFlags. */
  const ReferralServers: nat := 0x1
  const StorageServers: nat := 0x2
  const TargetFailback: nat := 0x4

  /** Where the first record starts. */
  const FirstRecord: nat := 8

  /** A read response; `originalPath` is the path the request asked about. */
  datatype ResponseGetDfsReferral = ResponseGetDfsReferral(
    originalPath: WString,
    pathConsumed: uint16,
    numberOfReferrals: uint16,
    referralHeaderFlags: uint16,
    referralEntries: seq<DfsReferral>)

  /** ResponseGetDfsReferral.VersionNumber: 0 with no records, else the first record's version. */
  function VersionNumber(r: ResponseGetDfsReferral): nat {
    if |r.referralEntries| < 1 then 0 else r.referralEntries[0].versionNumber
  }

  /** The patch in Read's loop: a record that left DfsPath null gets the original path. */
  function PatchDfsPath(r: DfsReferral, originalPath: WString): (p: DfsReferral)
    ensures p.dfsPath.Some?
    ensures r.dfsPath.Some? ==> p == r
    ensures r.dfsPath.None? ==> p == r.(dfsPath := Some(originalPath))
  {
    if r.dfsPath.None? then r.(dfsPath := Some(originalPath)) else r
  }

  /** Reads one record at a given offset of a fixed buffer. */
  type RecordReader = nat -> Result<DfsReferral, DecodeError>

  /** ReadReferral over `buf`, as a reader of offsets. */
  function RecordsOf(buf: seq<byte>): RecordReader {
    (offset: nat) => DecodeReferral(buf, offset)
  }

  /**
   * `count` records from `cursor` on, each read at the previous start plus
   * the previous record's Size, patched and kept in wire order.
   */
  function DecodeRecords(read: RecordReader, cursor: nat, count: nat, originalPath: WString)
    : (r: Result<seq<DfsReferral>, DecodeError>)
    ensures r.Success? ==> |r.value| == count
    decreases count
  {
    if count == 0 then Success([])
    else
      var referral :- read(cursor);
      Prepend([PatchDfsPath(referral, originalPath)], DecodeRecords(read, cursor + referral.size, count - 1, originalPath))
  }

  /** ResponseGetDfsReferral.Read, as a function of the buffer. */
  function DecodeResponse(buf: seq<byte>, originalPath: WString): (r: Result<ResponseGetDfsReferral, DecodeError>)
    ensures r.Success? ==>
      && ReadU16(buf, 0) == Some(r.value.pathConsumed as nat)
      && ReadU16(buf, 2) == Some(r.value.numberOfReferrals as nat)
      && ReadU16(buf, 4) == Some(r.value.referralHeaderFlags as nat)
      && r.value.originalPath == originalPath
      && |r.value.referralEntries| == r.value.numberOfReferrals
  {
    var pathConsumed :- Need(ReadU16(buf, 0));
    var numberOfReferrals :- Need(ReadU16(buf, 2));
    var flags :- Need(ReadU16(buf, 4));
    var entries :- DecodeRecords(RecordsOf(buf), FirstRecord, numberOfReferrals, originalPath);
    Success(ResponseGetDfsReferral(originalPath, pathConsumed, numberOfReferrals, flags, entries))
  }

  /** A failed read ends the run with the reader's error. */
  lemma DecodeRecordsFails(read: RecordReader, cursor: nat, count: nat, originalPath: WString)
    requires count > 0 && read(cursor).Failure?
    ensures DecodeRecords(read, cursor, count, originalPath) == Failure(read(cursor).error)
  {
  }

  /** One step of Read's loop: the patched record moves from the run into the collected prefix. */
  lemma DecodeRecordsMove(read: RecordReader, collected: seq<DfsReferral>, cursor: nat, count: nat,
                          originalPath: WString, record: DfsReferral)
    requires count > 0 && read(cursor) == Success(record)
    ensures Prepend(collected, DecodeRecords(read, cursor, count, originalPath))
         == Prepend(collected + [PatchDfsPath(record, originalPath)],
                    DecodeRecords(read, cursor + record.size, count - 1, originalPath))
  {
    PrependTwice(collected, [PatchDfsPath(record, originalPath)],
      DecodeRecords(read, cursor + record.size, count - 1, originalPath));
  }

  /**
   * The record loop of Read: each record is read at `ibuffer`, which then
   * advances by that record's Size; a record without a DfsPath gets the
   * request's path.
   */
  method ReadRecords(read: RecordReader, n: nat, originalPath: WString) returns (r: Result<seq<DfsReferral>, DecodeError>)
    ensures r == DecodeRecords(read, FirstRecord, n, originalPath)
  {
    var entries: seq<DfsReferral> := [];
    var ibuffer: nat := FirstRecord;
    PrependNothing(DecodeRecords(read, ibuffer, n, originalPath));
    for i := 0 to n
      invariant DecodeRecords(read, FirstRecord, n, originalPath)
             == Prepend(entries, DecodeRecords(read, ibuffer, n - i, originalPath))
    {
      var referral := read(ibuffer);
      if referral.Failure? {
        DecodeRecordsFails(read, ibuffer, n - i, originalPath);
        return Failure(referral.error);
      }
      var record := referral.value;
      DecodeRecordsMove(read, entries, ibuffer, n - i, originalPath, record);
      ibuffer := ibuffer + record.size;
      if record.dfsPath.None? {
        record := record.(dfsPath := Some(originalPath));
      }
      entries := entries + [record];
    }
    assert entries + [] == entries;
    return Success(entries);
  }

  /** Read: the three header fields, then the records. */
  method Read(buf: seq<byte>, originalPath: WString) returns (r: Result<ResponseGetDfsReferral, DecodeError>)
    ensures r == DecodeResponse(buf, originalPath)
  {
    var pathConsumed := ReadU16(buf, 0);
    var numberOfReferrals := ReadU16(buf, 2);
    var flags := ReadU16(buf, 4);
    if pathConsumed.None? || numberOfReferrals.None? || flags.None? {
      return Failure(OutOfRange);
    }
    var entries := ReadRecords(RecordsOf(buf), numberOfReferrals.value, originalPath);
    if entries.Failure? {
      return Failure(entries.error);
    }
    return Success(ResponseGetDfsReferral(originalPath, pathConsumed.value, numberOfReferrals.value, flags.value, entries.value));
  }

  /** Where record i of a run starts: each record starts at the previous start plus the previous Size. */
  function RecordStart(cursor: nat, records: seq<DfsReferral>, i: nat): nat
    requires i <= |records|
    decreases i
  {
    if i == 0 then cursor else RecordStart(cursor + records[0].size, records[1..], i - 1)
  }

  /** The start of record i + 1 is the start of record i plus record i's Size. */
  lemma {:induction false} RecordStartStep(cursor: nat, records: seq<DfsReferral>, i: nat)
    requires i < |records|
    ensures RecordStart(cursor, records, i + 1) == RecordStart(cursor, records, i) + records[i].size
    decreases i
  {
    if i > 0 {
      RecordStartStep(cursor + records[0].size, records[1..], i - 1);
    }
  }

  /** A successful run of count > 0 records is its patched first record followed by the run after it. */
  lemma DecodeRecordsCons(read: RecordReader, cursor: nat, count: nat, originalPath: WString)
    requires count > 0 && DecodeRecords(read, cursor, count, originalPath).Success?
    ensures read(cursor).Success?
    ensures var rest := DecodeRecords(read, cursor + read(cursor).value.size, count - 1, originalPath);
      && rest.Success?
      && DecodeRecords(read, cursor, count, originalPath).value == [PatchDfsPath(read(cursor).value, originalPath)] + rest.value
  {
  }

  /** Past the first record, record i's start is record i - 1's start in the run after it. */
  lemma RecordStartShift(cursor: nat, first: DfsReferral, rest: seq<DfsReferral>, i: nat)
    requires 0 < i <= |rest| + 1
    ensures RecordStart(cursor, [first] + rest, i) == RecordStart(cursor + first.size, rest, i - 1)
  {
    assert ([first] + rest)[1..] == rest;
  }

  /**
   * Each decoded record is the record found at its start, with DfsPath
   * patched: the records are read in wire order, each starting at the
   * previous start plus the previous Size.
   */
  /** Record i of `records` is the record the reader finds at its start, with DfsPath patched. */
  ghost predicate DecodedAt(read: RecordReader, cursor: nat, records: seq<DfsReferral>, originalPath: WString, i: nat)
    requires i < |records|
  {
    var start := RecordStart(cursor, records, i);
    read(start).Success? && records[i] == PatchDfsPath(read(start).value, originalPath)
  }

  lemma {:induction false} DecodedRecordAt(read: RecordReader, cursor: nat, count: nat, originalPath: WString, i: nat)
    requires DecodeRecords(read, cursor, count, originalPath).Success?
    requires i < count
    ensures DecodedAt(read, cursor, DecodeRecords(read, cursor, count, originalPath).value, originalPath, i)
    decreases i
  {
    DecodeRecordsCons(read, cursor, count, originalPath);
    var first := PatchDfsPath(read(cursor).value, originalPath);
    var next := cursor + first.size;
    var rest := DecodeRecords(read, next, count - 1, originalPath).value;
    var records := [first] + rest;
    assert DecodeRecords(read, cursor, count, originalPath).value == records;
    if i == 0 {
      assert RecordStart(cursor, records, 0) == cursor;
    } else {
      RecordStartShift(cursor, first, rest, i);
      DecodedRecordAt(read, next, count - 1, originalPath, i - 1);
      var start := RecordStart(next, rest, i - 1);
      assert read(start).Success? && rest[i - 1] == PatchDfsPath(read(start).value, originalPath);
      assert RecordStart(cursor, records, i) == start && records[i] == rest[i - 1];
    }
  }

  /**
   * Each decoded record is the record found at its start, with DfsPath
   * patched (so never null): the records are read in wire order, the
   * first at byte 8 and each later one at the previous start plus the
   * previous Size.
   */
  lemma DecodedRecordsInWireOrder(buf: seq<byte>, originalPath: WString)
    requires DecodeResponse(buf, originalPath).Success?
    ensures var records := DecodeResponse(buf, originalPath).value.referralEntries;
      forall i :: 0 <= i < |records| ==>
        && DecodeReferral(buf, RecordStart(FirstRecord, records, i)).Success?
        && records[i] == PatchDfsPath(DecodeReferral(buf, RecordStart(FirstRecord, records, i)).value, originalPath)
        && records[i].dfsPath.Some?
  {
    var records := DecodeResponse(buf, originalPath).value.referralEntries;
    forall i | 0 <= i < |records|
      ensures DecodeReferral(buf, RecordStart(FirstRecord, records, i)).Success?
      ensures records[i] == PatchDfsPath(DecodeReferral(buf, RecordStart(FirstRecord, records, i)).value, originalPath)
    {
      DecodedRecordAt(RecordsOf(buf), FirstRecord, |records|, originalPath, i);
      assert DecodedAt(RecordsOf(buf), FirstRecord, records, originalPath, i);
    }
  }

  /**
   * A record whose version is not 1, 2 or 3 (4 included) makes the whole
   * response fail; a response with no records has version 0, otherwise its
   * version is the first record's, which is 1, 2 or 3.
   */
  lemma DecodedVersion(buf: seq<byte>, originalPath: WString)
    ensures var r := DecodeResponse(buf, originalPath);
      r.Success? ==>
        && (VersionNumber(r.value) == 0 <==> r.value.numberOfReferrals == 0)
        && VersionNumber(r.value) in {0, 1, 2, 3}
    ensures
      (&& ReadU16(buf, 2).Some? && ReadU16(buf, 2).value > 0 && ReadU16(buf, 4).Some?
       && ReadU16(buf, FirstRecord).Some? && ReadU16(buf, FirstRecord).value !in {1, 2, 3})
      ==> DecodeResponse(buf, originalPath) == Failure(UnsupportedVersion(ReadU16(buf, FirstRecord).value))
  {
  }
}
