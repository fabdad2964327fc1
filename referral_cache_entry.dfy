/**
 * A ReferralCache entry: the DFS path prefix a root or link referral answered
 * for, its targets in the server's order and a cursor (TargetHint) into them
 * that only moves forward.
 */
module ReferralCacheEntries {
  import opened Wrappers
  import opened Text
  import opened LittleEndian
  import opened Referrals
  import opened Responses
  import opened DfsPaths
  import opened DomainCaches

  /** One target: its UNC path and whether it failed (always created as not failed). */
  datatype TargetSetEntry = TargetSetEntry(targetPath: WString, failed: bool)

  /** Why the constructor threw. */
  datatype EntryError =
    | NullReferralPath   // a referral left Path null
    | NoReferrals        // the response has no referrals
    | NoPathComponents   // PathComponents[0] of a first Path with no components

  /** The constructor's immutable results; `expires` is in milliseconds on the caller's clock. */
  datatype EntryInfo = EntryInfo(
    dfsPathPrefix: Option<WString>,
    rootOrLink: uint16,
    interlink: bool,
    ttl: int,
    expires: int,
    targetFailback: bool,
    targetList: seq<TargetSetEntry>)

  predicate AllPathsSet(referrals: seq<DfsReferral>) {
    forall i :: 0 <= i < |referrals| ==> referrals[i].path.Some?
  }

  /** One target per referral, in order, each with that referral's Path. */
  function Targets(referrals: seq<DfsReferral>): (r: seq<TargetSetEntry>)
    requires AllPathsSet(referrals)
    ensures |r| == |referrals|
    ensures forall i :: 0 <= i < |referrals| ==> r[i] == TargetSetEntry(referrals[i].path.value, false)
  {
    seq(|referrals|, i requires 0 <= i < |referrals| => TargetSetEntry(referrals[i].path.value, false))
  }

  /**
   * The Interlink flag: ReferralServers set and StorageServers clear; failing
   * that, and with exactly one referral, whether the first component of its
   * Path names a cached domain.
   */
  function InterlinkOf(response: ResponseGetDfsReferral, domainCache: DomainCache): (r: Result<bool, EntryError>)
    requires |response.referralEntries| > 0 && response.referralEntries[0].path.Some?
    reads domainCache
  {
    var flags := response.referralHeaderFlags as nat;
    var interlink := BitSet(flags, ReferralServers) && !BitSet(flags, StorageServers);
    if !interlink && |response.referralEntries| == 1 then
      var pathEntries := SplitPath(response.referralEntries[0].path.value);
      if |pathEntries| == 0 then Failure(NoPathComponents)
      else Success(domainCache.Lookup(pathEntries[0]).Some?)
    else Success(interlink)
  }

  /** new ReferralCacheEntry(response, domainCache) at time `now`. */
  function EntryInfoOf(response: ResponseGetDfsReferral, domainCache: DomainCache, now: int): (r: Result<EntryInfo, EntryError>)
    reads domainCache
    ensures !AllPathsSet(response.referralEntries) ==> r == Failure(NullReferralPath)
    ensures AllPathsSet(response.referralEntries) && |response.referralEntries| == 0 ==> r == Failure(NoReferrals)
    ensures AllPathsSet(response.referralEntries) && |response.referralEntries| > 0 ==>
      var flags := response.referralHeaderFlags as nat;
      var byFlags := BitSet(flags, ReferralServers) && !BitSet(flags, StorageServers);
      && (r.Failure? <==> !byFlags && |response.referralEntries| == 1 && SplitPath(response.referralEntries[0].path.value) == [])
      && (r.Failure? ==> r.error == NoPathComponents)
    ensures r.Success? ==>
      var first := response.referralEntries[0];
      && |response.referralEntries| > 0
      && r.value.dfsPathPrefix == first.dfsPath
      && r.value.rootOrLink == first.serverType
      && r.value.ttl == first.ttl
      && r.value.expires == now + first.ttl
      && r.value.targetFailback == BitSet(response.referralHeaderFlags as nat, TargetFailback)
      && |r.value.targetList| == |response.referralEntries|
      && (forall i :: 0 <= i < |response.referralEntries| ==>
            r.value.targetList[i] == TargetSetEntry(response.referralEntries[i].path.value, false))
  {
    var referrals := response.referralEntries;
    if !AllPathsSet(referrals) then Failure(NullReferralPath)
    else if |referrals| < 1 then Failure(NoReferrals)
    else
      var first := referrals[0];
      var interlink :- InterlinkOf(response, domainCache);
      Success(EntryInfo(first.dfsPath, first.serverType, interlink, first.ttl, now + first.ttl,
                        BitSet(response.referralHeaderFlags as nat, TargetFailback), Targets(referrals)))
  }

  /** The Interlink rule, both ways. */
  lemma InterlinkRule(response: ResponseGetDfsReferral, domainCache: DomainCache, now: int)
    requires EntryInfoOf(response, domainCache, now).Success?
    ensures var flags := response.referralHeaderFlags as nat;
      var byFlags := BitSet(flags, ReferralServers) && !BitSet(flags, StorageServers);
      var info := EntryInfoOf(response, domainCache, now).value;
      && (byFlags ==> info.interlink)
      && (!byFlags && |response.referralEntries| > 1 ==> !info.interlink)
      && (!byFlags && |response.referralEntries| == 1 ==>
            info.interlink == domainCache.Lookup(SplitPath(response.referralEntries[0].path.value)[0]).Some?)
  {
  }

  /** TargetHintEntry as a function of the list and the hint. */
  function HintEntry(targetList: seq<TargetSetEntry>, targetHint: nat): (r: Option<TargetSetEntry>)
    ensures r.Some? <==> targetHint < |targetList|
    ensures r.Some? ==> r.value in targetList
  {
    if targetHint < |targetList| then Some(targetList[targetHint]) else None
  }

  /** Once the hint has run past the end, every later hint is null too. */
  lemma HintPastEndStaysNull(targetList: seq<TargetSetEntry>, targetHint: nat, later: nat)
    requires HintEntry(targetList, targetHint).None? && targetHint <= later
    ensures HintEntry(targetList, later).None?
  {
  }

  class ReferralCacheEntry {
    const info: EntryInfo
    var targetHint: nat

    /** TargetHint starts at 0. */
    constructor (info: EntryInfo)
      ensures this.info == info && targetHint == 0
    {
      this.info := info;
      targetHint := 0;
    }

    predicate IsRoot() {
      info.rootOrLink as nat == ServerTypeRoot
    }

    predicate IsLink() {
      info.rootOrLink as nat == ServerTypeLink
    }

    /** Strictly later than Expires: an entry with Ttl 0 is still live at its creation instant. */
    predicate IsExpired(now: int) {
      now > info.expires
    }

    predicate IsInterlink() {
      IsLink() && info.interlink
    }

    function TargetHintEntry(): Option<TargetSetEntry>
      reads this
    {
      HintEntry(info.targetList, targetHint)
    }

    /** NextTargetHint: the hint moves up by one, never back. */
    method NextTargetHint() returns (r: Option<TargetSetEntry>)
      modifies this`targetHint
      ensures targetHint == old(targetHint) + 1
      ensures r == TargetHintEntry()
      ensures old(TargetHintEntry()).None? ==> r.None?
    {
      targetHint := targetHint + 1;
      r := TargetHintEntry();
    }
  }

  /** Root and link exclude each other, and an interlink is a link. */
  lemma KindsExclusive(e: ReferralCacheEntry)
    ensures !(e.IsRoot() && e.IsLink())
    ensures e.IsInterlink() ==> e.IsLink()
  {
  }

  /** An entry is expired exactly when more than Ttl milliseconds have passed since it was made. */
  lemma ExpiryAfterCreation(response: ResponseGetDfsReferral, domainCache: DomainCache, created: int, now: int)
    requires EntryInfoOf(response, domainCache, created).Success?
    ensures var info := EntryInfoOf(response, domainCache, created).value;
      (now > info.expires) <==> now - created > info.ttl
  {
  }

  /**
   * The constructor: the loop that rejects a null Path, the count check, the
   * interlink rule, then the loop that builds TargetList.
   */
  method Create(response: ResponseGetDfsReferral, domainCache: DomainCache, now: int)
    returns (r: Result<ReferralCacheEntry, EntryError>)
    ensures r.Success? <==> EntryInfoOf(response, domainCache, now).Success?
    ensures r.Success? ==> fresh(r.value) && r.value.info == EntryInfoOf(response, domainCache, now).value
    ensures r.Success? ==> r.value.targetHint == 0
    ensures r.Failure? ==> r.error == EntryInfoOf(response, domainCache, now).error
  {
    var referrals := response.referralEntries;
    for i := 0 to |referrals|
      invariant forall j :: 0 <= j < i ==> referrals[j].path.Some?
    {
      if referrals[i].path.None? {
        return Failure(NullReferralPath);
      }
    }
    if |referrals| < 1 {
      return Failure(NoReferrals);
    }
    var first := referrals[0];
    var interlink := InterlinkOf(response, domainCache);
    if interlink.Failure? {
      return Failure(interlink.error);
    }
    var targetList: seq<TargetSetEntry> := [];
    for i := 0 to |referrals|
      invariant targetList == Targets(referrals)[..i]
    {
      targetList := targetList + [TargetSetEntry(referrals[i].path.value, false)];
    }
    var info := EntryInfo(first.dfsPath, first.serverType, interlink.value, first.ttl, now + first.ttl,
                          BitSet(response.referralHeaderFlags as nat, TargetFailback), targetList);
    var entry := new ReferralCacheEntry(info);
    return Success(entry);
  }
}
