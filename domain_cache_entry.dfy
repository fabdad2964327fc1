/**
 * A DomainCache entry: a domain name with its domain controllers, built from
 * the answer to a DC referral request (a single name-list referral).
 */
module DomainCacheEntries {
  import opened Wrappers
  import opened Text
  import opened LittleEndian
  import opened Referrals
  import opened Responses

  /** DomainName is a reference copied from the referral, so it may be null. */
  datatype DomainCacheEntry = DomainCacheEntry(domainName: Option<WString>, dcHint: WString, dcList: seq<WString>)

  /** Why the constructor threw. */
  datatype DomainEntryError =
    | WrongReferralCount(count: nat)   // not exactly one referral
    | NotNameListReferral              // the NameListReferral bit is clear
    | NoExpandedNames                  // ExpandedNames[0] on a null list (v1/v2 record) or an empty one

  /**
   * new DomainCacheEntry(response): exactly one referral, with the
   * NameListReferral bit, whose first expanded name is the hint and whose
   * expanded names, in order, are the DC list.
   */
  function FromResponse(response: ResponseGetDfsReferral): (r: Result<DomainCacheEntry, DomainEntryError>)
    ensures r.Success? <==>
      && |response.referralEntries| == 1
      && IsNameList(response.referralEntries[0])
      && |response.referralEntries[0].expandedNames| > 0
    ensures |response.referralEntries| != 1 ==> r == Failure(WrongReferralCount(|response.referralEntries|))
    ensures |response.referralEntries| == 1 && !IsNameList(response.referralEntries[0]) ==> r == Failure(NotNameListReferral)
    ensures r.Success? ==>
      && r.value.domainName == response.referralEntries[0].specialName
      && r.value.dcList == response.referralEntries[0].expandedNames
      && r.value.dcHint == r.value.dcList[0]
  {
    if |response.referralEntries| != 1 then Failure(WrongReferralCount(|response.referralEntries|))
    else
      var referral := response.referralEntries[0];
      if !IsNameList(referral) then Failure(NotNameListReferral)
      else if |referral.expandedNames| == 0 then Failure(NoExpandedNames)
      else Success(DomainCacheEntry(referral.specialName, referral.expandedNames[0], referral.expandedNames))
  }

  /**
   * For a response read off the wire the null DomainName cannot happen: a
   * record with expanded names is a v3 name-list record, and those always
   * carry a SpecialName.
   */
  lemma DomainNameOfDecodedResponse(buf: seq<byte>, originalPath: WString)
    requires DecodeResponse(buf, originalPath).Success?
    requires FromResponse(DecodeResponse(buf, originalPath).value).Success?
    ensures FromResponse(DecodeResponse(buf, originalPath).value).value.domainName.Some?
  {
    var records := DecodeResponse(buf, originalPath).value.referralEntries;
    DecodedRecordsInWireOrder(buf, originalPath);
    assert RecordStart(FirstRecord, records, 0) == FirstRecord;
    var decoded := DecodeReferral(buf, FirstRecord).value;
    assert records[0] == PatchDfsPath(decoded, originalPath);
    assert decoded.expandedNames == records[0].expandedNames;
  }
}
