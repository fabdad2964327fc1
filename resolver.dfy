/**
 * DfsPathResolver: the client's path resolution (section 3.1.4.1 of MS-DFSC)
 * as the fourteen steps the source writes out, over a referral cache and a
 * domain cache that live as long as the resolver.
 *
 * The network and the caller's operation are oracles: `transport` answers a
 * referral request (a status and an output buffer), and a ResolveState's
 * `action` answers the operation on a path. Each oracle also receives the
 * number of events so far, so repeated calls may be answered differently.
 * Exceptions become Outcome values.
 */
module Resolvers {
  import opened Wrappers
  import opened Text
  import opened LittleEndian
  import opened NtStatus
  import opened DfsPaths
  import opened SmbPaths
  import opened Request
  import opened Referrals
  import opened Responses
  import opened DomainCacheEntries
  import opened DomainCaches
  import opened ReferralCacheEntries
  import opened ReferralCacheNodes
  import opened ReferralCaches

  /** DfsRequestType, without DOMAIN (whose handling always throws). */
  datatype RequestType = DC | SYSVOL | ROOT | LINK

  /** The fixed request parameters: MaxReferralLevel and the output cap. */
  const MaxReferralLevel: uint16 := 4
  const MaxOutputSize: nat := 4096

  /** What DeviceIOControl hands back: the status and the output buffer. */
  datatype Reply = Reply(status: NTStatus, output: seq<byte>)

  /** Everything the resolver does that leaves the process, in order. */
  datatype Event =
    | ReferralRequested(requestType: RequestType, share: WString, request: seq<byte>, maxOutputSize: nat)
    | ActionInvoked(path: WString)

  /** The path of an ActionInvoked event; empty for any other event. */
  function ActionPath(e: Event): WString {
    if e.ActionInvoked? then e.path else []
  }

  /** An exception other than those of Step13 and Step14. */
  datatype Fault =
    | UnparsablePath(pathError: PathError)         // SmbPath.Parse threw
    | MalformedResponse(decodeError: DecodeError)  // ResponseGetDfsReferral.Read threw
    | BadDomainResponse(domainError: DomainEntryError)
    | BadReferralResponse(entryError: EntryError)
    | NullCacheKey                                 // DomainCache.Add with a null DomainName
    | NullDfsPathPrefix                            // ReferralCache.Add with a null DfsPathPrefix
    | NullReference                                // a null entry or target dereferenced
    | NoPathComponent                              // PathComponents[0] of an empty path

  /** How a resolution ends. */
  datatype Outcome =
    | Completed(status: NTStatus)         // the action ran; its result's status
    | CannotGetDc(status: NTStatus)       // Step13's exception
    | DfsRequestFailed(status: NTStatus)  // Step14's exception
    | Faulted(fault: Fault)
    | OutOfFuel                           // the Step9/Step11 restarts went on longer than the fuel allows

  /** ReferralResult: the request's status and what processing the response produced. */
  datatype ReferralResult = ReferralResult(
    status: NTStatus,
    referralCacheEntry: Option<ReferralCacheEntry>,
    domainCacheEntry: Option<DomainCacheEntry>)

  /** The request for a path: its ToPath at referral level 4, encoded. */
  function RequestBytes(path: DfsPath): seq<byte> {
    Encoding(RequestGetDfsReferral(MaxReferralLevel, ToPath(path.pathComponents)))
  }

  /** `{hostName}\IPC$` */
  function IpcShare(hostName: WString): WString {
    hostName + [Backslash] + Ipc
  }

  // ---------------------------------------------------------------------------
  // The decisions the steps take, as functions.
  // ---------------------------------------------------------------------------

  /** Step1's short cut: a path of one component, or one on IPC$, is not resolved. */
  predicate Shortcut(path: DfsPath) {
    HasOnlyOnePathComponent(path) || IsIpc(path)
  }

  /** The root of a path, as Step9 looks it up: its first two components (fewer if it has fewer). */
  function RootPathOf(path: DfsPath): (r: DfsPath)
    ensures |r.pathComponents| == if |path.pathComponents| < 2 then |path.pathComponents| else 2
    ensures r.pathComponents <= path.pathComponents
  {
    DfsPath(path.pathComponents[..if |path.pathComponents| < 2 then |path.pathComponents| else 2])
  }

  /** The step Step2 goes to. */
  function CacheRouteOf(lookup: Option<ReferralCacheEntry>, now: int): (step: nat) {
    if lookup.None? || (lookup.value.IsExpired(now) && lookup.value.IsRoot()) then 5
    else if lookup.value.IsExpired(now) then 9
    else if lookup.value.IsLink() then 4
    else 3
  }

  /**
   * Step2's dispatch: a miss or an expired root asks for a root referral, an
   * expired link refreshes it, a live link goes to Step4 and a live root to
   * Step3.
   */
  lemma CacheDispatch(lookup: Option<ReferralCacheEntry>, now: int)
    ensures CacheRouteOf(lookup, now) == 5 <==>
      lookup.None? || (lookup.value.IsExpired(now) && lookup.value.IsRoot())
    ensures CacheRouteOf(lookup, now) == 9 <==>
      lookup.Some? && lookup.value.IsExpired(now) && !lookup.value.IsRoot()
    ensures CacheRouteOf(lookup, now) == 4 <==>
      lookup.Some? && !lookup.value.IsExpired(now) && lookup.value.IsLink()
    ensures CacheRouteOf(lookup, now) == 3 <==>
      lookup.Some? && !lookup.value.IsExpired(now) && !lookup.value.IsLink()
  {
    if lookup.Some? {
      KindsExclusive(lookup.value);
    }
  }

  /** Step4: an interlink goes on to Step11 unless the path names SYSVOL or NETLOGON. */
  predicate FollowsInterlink(path: DfsPath, lookup: ReferralCacheEntry) {
    !IsSysVolOrNetLogon(path) && lookup.IsInterlink()
  }

  /** The step Step4 goes to. */
  function LinkRouteOf(path: DfsPath, lookup: ReferralCacheEntry): (step: nat) {
    if FollowsInterlink(path, lookup) then 11 else 3
  }

  /** The step Step6 goes to after a failed ROOT request. */
  function RootFailureRouteOf(resolvedDomainEntry: bool, isDfsPath: bool): (step: nat) {
    if resolvedDomainEntry then 13
    else if isDfsPath then 14
    else 12
  }

  /**
   * A failed ROOT request ends in Step13 when a domain entry was resolved,
   * otherwise in Step14 for a path already known to be DFS, otherwise in
   * the action on the unchanged path.
   */
  lemma RootFailureDispatch(resolvedDomainEntry: bool, isDfsPath: bool)
    ensures RootFailureRouteOf(resolvedDomainEntry, isDfsPath) == 13 <==> resolvedDomainEntry
    ensures RootFailureRouteOf(resolvedDomainEntry, isDfsPath) == 14 <==> !resolvedDomainEntry && isDfsPath
    ensures RootFailureRouteOf(resolvedDomainEntry, isDfsPath) == 12 <==> !resolvedDomainEntry && !isDfsPath
  {
  }

  /** Statuses on which Step3 stops trying further targets. */
  predicate StopsStep3(status: NTStatus) {
    status == STATUS_SUCCESS || status == STATUS_PATH_NOT_COVERED
  }

  /**
   * The paths Step3 can try, one per target in order: the original path with
   * the prefix replaced by that target.
   */
  function Spliced(initialPath: DfsPath, prefix: WString, targets: seq<TargetSetEntry>): (r: seq<DfsPath>)
    ensures |r| == |targets|
    decreases |targets|
  {
    if targets == [] then [] else
      Spliced(initialPath, prefix, targets[..|targets| - 1])
      + [ReplacePrefix(initialPath, prefix, targets[|targets| - 1].targetPath)]
  }

  lemma {:induction false} SplicedAt(initialPath: DfsPath, prefix: WString, targets: seq<TargetSetEntry>, i: nat)
    requires i < |targets|
    ensures Spliced(initialPath, prefix, targets)[i] == ReplacePrefix(initialPath, prefix, targets[i].targetPath)
    decreases |targets|
  {
    if i < |targets| - 1 {
      SplicedAt(initialPath, prefix, targets[..|targets| - 1], i);
    }
  }

  /** What the caller's operation receives for each path: its ToPath string. */
  function PathStrings(paths: seq<DfsPath>): (r: seq<WString>)
    ensures |r| == |paths|
    decreases |paths|
  {
    if paths == [] then [] else
      PathStrings(paths[..|paths| - 1]) + [ToPath(paths[|paths| - 1].pathComponents)]
  }

  lemma {:induction false} PathStringsAt(paths: seq<DfsPath>, i: nat)
    requires i < |paths|
    ensures PathStrings(paths)[i] == ToPath(paths[i].pathComponents)
    decreases |paths|
  {
    if i < |paths| - 1 {
      PathStringsAt(paths[..|paths| - 1], i);
    }
  }

  /** Target by target: each spliced path, and the string the operation receives for it. */
  lemma SplicedPaths(initialPath: DfsPath, prefix: WString, targets: seq<TargetSetEntry>, paths: seq<DfsPath>, strs: seq<WString>)
    requires paths == Spliced(initialPath, prefix, targets) && strs == PathStrings(paths)
    ensures |paths| == |strs| == |targets|
    ensures forall h {:trigger targets[h], paths[h]} :: 0 <= h < |paths| ==>
      paths[h] == ReplacePrefix(initialPath, prefix, targets[h].targetPath) && strs[h] == ToPath(paths[h].pathComponents)
  {
    forall h | 0 <= h < |paths|
      ensures paths[h] == ReplacePrefix(initialPath, prefix, targets[h].targetPath)
      ensures strs[h] == ToPath(paths[h].pathComponents)
    {
      SplicedAt(initialPath, prefix, targets, h);
      PathStringsAt(paths, h);
    }
  }

  /** The actions Step3 runs on `tried[from]` .. `tried[from + count - 1]`, in order. */
  function Attempts(tried: seq<WString>, from: nat, count: nat): (r: seq<Event>)
    requires count == 0 || from + count <= |tried|
    ensures |r| == count
  {
    if count == 0 then [] else
      Attempts(tried, from, count - 1) + [ActionInvoked(tried[from + count - 1])]
  }

  /** One more attempt extends the run of attempts by its event. */
  lemma AttemptsSnoc(t0: seq<Event>, tried: seq<WString>, from: nat, count: nat)
    requires from + count < |tried|
    ensures t0 + Attempts(tried, from, count) + [ActionInvoked(tried[from + count])]
      == t0 + Attempts(tried, from, count + 1)
  {
  }

  /** What the caller's operation answers for its `at`-th event, run on `path`. */
  function Answer(action: (nat, WString) -> NTStatus, at: nat, path: WString): NTStatus {
    action(at, path)
  }

  /** What the attempt at offset `k` of a run answers: event `at + k`, target `hint + k`. */
  function AnswerAt(action: (nat, WString) -> NTStatus, at: nat, strs: seq<WString>, hint: nat, k: nat): NTStatus
    requires hint + k < |strs|
  {
    Answer(action, at + k, strs[hint + k])
  }

  /** How a run of Step3 attempts ends: the offset of its last attempt and that attempt's status. */
  datatype Run = Run(final: nat, last: NTStatus)

  /**
   * Step3's attempts on the path strings `strs` from target `hint` on, the
   * first being event number `at`, continued from offset `k`: each runs the
   * action on its path, and the run stops at a stopping status or after the
   * last target.
   */
  function RunFrom(action: (nat, WString) -> NTStatus, at: nat, strs: seq<WString>, hint: nat, k: nat): (r: Run)
    requires hint + k < |strs|
    ensures k <= r.final < |strs| - hint
    decreases |strs| - hint - k
  {
    var status := AnswerAt(action, at, strs, hint, k);
    if StopsStep3(status) || hint + k + 1 == |strs| then Run(k, status)
    else RunFrom(action, at, strs, hint, k + 1)
  }

  /**
   * A run tries targets in order until one answers STATUS_SUCCESS or
   * STATUS_PATH_NOT_COVERED: every attempt before the last got another
   * status, the last status is the last attempt's, and a run that did not
   * stop on it used up the list.
   */
  lemma {:induction false} RunStopsAtFirstStop(action: (nat, WString) -> NTStatus, at: nat, strs: seq<WString>, hint: nat, k: nat)
    requires hint + k < |strs|
    ensures var r := RunFrom(action, at, strs, hint, k);
      && (forall j :: k <= j < r.final ==> !StopsStep3(AnswerAt(action, at, strs, hint, j)))
      && r.last == AnswerAt(action, at, strs, hint, r.final)
      && (StopsStep3(r.last) || hint + r.final + 1 == |strs|)
    decreases |strs| - hint - k
  {
    var status := AnswerAt(action, at, strs, hint, k);
    if !(StopsStep3(status) || hint + k + 1 == |strs|) {
      RunStopsAtFirstStop(action, at, strs, hint, k + 1);
    }
  }

  /**
   * The converse: attempts that did not stop, followed by one that stops or
   * uses up the list, make up the whole run.
   */
  lemma {:induction false} RunOfAttempts(action: (nat, WString) -> NTStatus, at: nat, strs: seq<WString>, hint: nat, k: nat, final: nat)
    requires k <= final && hint + final < |strs|
    requires forall j :: k <= j < final ==> !StopsStep3(AnswerAt(action, at, strs, hint, j))
    requires StopsStep3(AnswerAt(action, at, strs, hint, final)) || hint + final + 1 == |strs|
    ensures RunFrom(action, at, strs, hint, k) == Run(final, AnswerAt(action, at, strs, hint, final))
    decreases final - k
  {
    if k < final {
      RunOfAttempts(action, at, strs, hint, k + 1, final);
    }
  }

  /** Step13: "Cannot get DC for domain". */
  function Step13(status: NTStatus): Outcome {
    CannotGetDc(status)
  }

  /** Step14: "DFS request failed". */
  function Step14(status: NTStatus): Outcome {
    DfsRequestFailed(status)
  }

  // ---------------------------------------------------------------------------
  // What a referral reply leads to, as functions of the reply.
  // ---------------------------------------------------------------------------

  /** What a ROOT, LINK or SYSVOL reply leads to. */
  datatype RootAnswer =
    | Declined(status: NTStatus)   // ReferralResult with this status and no entry
    | Referred(info: EntryInfo)    // STATUS_SUCCESS and a new cache entry made of `info`
    | Broken(fault: Fault)         // processing the response threw

  /**
   * The processing of a ROOT, LINK or SYSVOL reply (HandleReferralResponse
   * and HandleRootOrLinkReferralResponse): a failed status is passed on; a
   * reply is read with the request's path as OriginalPath; a response with no
   * referrals is STATUS_OBJECT_PATH_NOT_FOUND; otherwise the cache entry made
   * from it is the answer, and a null DfsPathPrefix makes adding it throw.
   */
  function RootOrLinkAnswer(reply: Reply, path: DfsPath, domainCache: DomainCache, now: int): (r: RootAnswer)
    reads domainCache
    ensures r.Referred? ==> r.info.dfsPathPrefix.Some?
  {
    if reply.status != STATUS_SUCCESS then Declined(reply.status)
    else match DecodeResponse(reply.output, ToPath(path.pathComponents))
      case Failure(e) => Broken(MalformedResponse(e))
      case Success(response) =>
        if |response.referralEntries| < 1 then Declined(STATUS_OBJECT_PATH_NOT_FOUND)
        else match EntryInfoOf(response, domainCache, now)
          case Failure(e) => Broken(BadReferralResponse(e))
          case Success(info) => if info.dfsPathPrefix.None? then Broken(NullDfsPathPrefix) else Referred(info)
  }

  /**
   * The processing of a DC reply (HandleReferralResponse and
   * HandleDcReferralResponse): a failed status is passed on; a response below
   * version 3 yields no entry; otherwise the domain cache entry made from it.
   */
  function DcAnswer(reply: Reply, path: DfsPath): (r: Result<ReferralResult, Fault>)
    ensures r.Success? ==> r.value.referralCacheEntry.None?
    ensures r.Success? && r.value.domainCacheEntry.Some? ==>
      r.value.status == STATUS_SUCCESS && r.value.domainCacheEntry.value.domainName.Some?
  {
    if reply.status != STATUS_SUCCESS then Success(ReferralResult(reply.status, None, None))
    else match DecodeResponse(reply.output, ToPath(path.pathComponents))
      case Failure(e) => Failure(MalformedResponse(e))
      case Success(response) =>
        if VersionNumber(response) < 3 then Success(ReferralResult(STATUS_SUCCESS, None, None))
        else match FromResponse(response)
          case Failure(e) => Failure(BadDomainResponse(e))
          case Success(entry) =>
            if entry.domainName.None? then Failure(NullCacheKey)
            else Success(ReferralResult(STATUS_SUCCESS, None, Some(entry)))
  }

  /** The domain cache after a DC reply: the new entry upserted under its name, if there is one. */
  function DcSlots(slots: Slots, answer: Result<ReferralResult, Fault>): Slots {
    if answer.Success? && answer.value.domainCacheEntry.Some? && answer.value.domainCacheEntry.value.domainName.Some?
    then Upsert(slots, answer.value.domainCacheEntry.value.domainName.value, answer.value.domainCacheEntry.value)
    else slots
  }

  /**
   * Step5's domain cache entry: one with a DC hint as it is; for one without,
   * what the DC reply gives, Step13 for a failed status and a null reference
   * when the response gave no entry.
   */
  function DcHintAnswer(entry: DomainCacheEntry, reply: Reply, path: DfsPath): Result<DomainCacheEntry, Outcome> {
    if entry.dcHint != [] then Success(entry)
    else match DcAnswer(reply, path)
      case Failure(e) => Failure(Faulted(e))
      case Success(result) =>
        if result.status != STATUS_SUCCESS then Failure(Step13(result.status))
        else if result.domainCacheEntry.None? then Failure(Faulted(NullReference))
        else Success(result.domainCacheEntry.value)
  }

  /**
   * The entry a DC reply hands to Step5 when the cached DcHint is empty: the
   * one FromResponse builds from a version 3 or later response, a null
   * reference below version 3, and Step13 for a failed status.
   */
  lemma DcHintOfDecodedResponse(entry: DomainCacheEntry, reply: Reply, path: DfsPath)
    requires entry.dcHint == []
    ensures reply.status != STATUS_SUCCESS ==> DcHintAnswer(entry, reply, path) == Failure(Step13(reply.status))
    ensures reply.status == STATUS_SUCCESS ==>
      match DecodeResponse(reply.output, ToPath(path.pathComponents))
        case Failure(e) => DcHintAnswer(entry, reply, path) == Failure(Faulted(MalformedResponse(e)))
        case Success(response) =>
          && (VersionNumber(response) < 3 ==> DcHintAnswer(entry, reply, path) == Failure(Faulted(NullReference)))
          && (VersionNumber(response) >= 3 && FromResponse(response).Success? && FromResponse(response).value.domainName.Some? ==>
                DcHintAnswer(entry, reply, path) == Success(FromResponse(response).value))
  {
  }

  // ---------------------------------------------------------------------------
  // The steps log.
  // ---------------------------------------------------------------------------

  /** What a step receives besides the state. */
  datatype StepArg =
    | NoArg
    | ReferralArg(entry: ReferralCacheEntry)  // Steps 3, 4, 7, 9 and 11
    | DomainArg(domain: DomainCacheEntry)     // Step10

  /** One step taken: its number, the state it started from and what it received. */
  datatype Visit = Visit(step: nat, path: DfsPath, hostName: Option<WString>, resolvedDomainEntry: bool,
                         isDfsPath: bool, arg: StepArg)

  /** `v` is `template` entered with a referral cache entry made of `info`. */
  predicate MadeFrom(v: Visit, template: Visit, info: EntryInfo) {
    v.arg.ReferralArg? && v == template.(arg := v.arg) && v.arg.entry.info == info
  }

  /** Where Step5 goes with the domain cache entry `entry` (from `here`, its own visit): Step10, or Step6 with the DC hint as host. */
  function KnownDomainNext(here: Visit, entry: DomainCacheEntry): Visit {
    if IsSysVolOrNetLogon(here.path) then here.(step := 10, arg := DomainArg(entry))
    else here.(step := 6, hostName := Some(entry.dcHint), resolvedDomainEntry := true, arg := NoArg)
  }

  /** ResolveState: the path being resolved and what the steps learned about it. */
  class ResolveState {
    var path: DfsPath
    var resolvedDomainEntry: bool
    var isDfsPath: bool
    var hostName: Option<WString>
    const action: (nat, WString) -> NTStatus
    /** The clock, read once for the whole resolution. */
    const now: int
    /** The steps taken so far, in order, each with what it started from (Step8, Step13 and Step14 are not logged). */
    ghost var steps: seq<Visit>

    constructor (path: DfsPath, action: (nat, WString) -> NTStatus, now: int)
      ensures this.path == path && this.action == action && this.now == now
      ensures !resolvedDomainEntry && !isDfsPath && hostName.None? && steps == []
    {
      steps := [];
      this.path := path;
      this.action := action;
      this.now := now;
      resolvedDomainEntry := false;
      isDfsPath := false;
      hostName := None;
    }

    /** The visit of step `step`, entered now with `arg`. */
    ghost function Entering(step: nat, arg: StepArg): Visit
      reads this
    {
      Visit(step, path, hostName, resolvedDomainEntry, isDfsPath, arg)
    }
  }

  class DfsPathResolver {
    const referralCache: ReferralCache
    const domainCache: DomainCache
    const transport: (nat, WString, seq<byte>, nat) -> Reply
    /** session.Credentials.Domain: where a DC referral request goes. */
    const bootstrapDc: WString
    var trace: seq<Event>
    /** Every referral cache entry this resolver has made. */
    ghost var entries: set<ReferralCacheEntry>

    ghost predicate Valid()
      reads this, referralCache
    {
      EntriesIn(referralCache.root, entries)
    }

    constructor (transport: (nat, WString, seq<byte>, nat) -> Reply, bootstrapDc: WString)
      ensures Valid() && fresh(referralCache) && fresh(domainCache)
      ensures referralCache.root == Empty && forall name :: domainCache.Lookup(name) == None
      ensures this.transport == transport && this.bootstrapDc == bootstrapDc
      ensures trace == [] && entries == {}
    {
      referralCache := new ReferralCache();
      domainCache := new DomainCache();
      this.transport := transport;
      this.bootstrapDc := bootstrapDc;
      trace := [];
      entries := {};
      new;
      forall keys ensures EntryAt(Empty, keys) == None {
        EntryAtEmpty(keys);
      }
    }

    // -------------------------------------------------------------------------
    // Referral requests and their responses.
    // -------------------------------------------------------------------------

    /**
     * HandleRootOrLinkReferralResponse: no referrals gives
     * STATUS_OBJECT_PATH_NOT_FOUND and no change; otherwise a new entry is
     * made from the response and added to the referral cache.
     */
    method HandleRootOrLinkReferralResponse(response: ResponseGetDfsReferral, now: int)
      returns (r: Result<ReferralResult, Fault>)
      requires Valid()
      modifies referralCache, this`entries
      ensures Valid() && old(entries) <= entries && fresh(entries - old(entries))
      ensures |response.referralEntries| < 1 ==>
        && r == Success(ReferralResult(STATUS_OBJECT_PATH_NOT_FOUND, None, None))
        && referralCache.root == old(referralCache.root)
      ensures |response.referralEntries| >= 1 && EntryInfoOf(response, domainCache, now).Failure? ==>
        && r == Failure(BadReferralResponse(EntryInfoOf(response, domainCache, now).error))
        && referralCache.root == old(referralCache.root)
      ensures |response.referralEntries| >= 1 && EntryInfoOf(response, domainCache, now).Success? ==>
        var info := EntryInfoOf(response, domainCache, now).value;
        if info.dfsPathPrefix.None? then
          r == Failure(NullDfsPathPrefix) && referralCache.root == old(referralCache.root)
        else
          && r.Success? && r.value.status == STATUS_SUCCESS && r.value.domainCacheEntry.None?
          && r.value.referralCacheEntry.Some?
          && var e := r.value.referralCacheEntry.value;
          && fresh(e) && e.info == info && e.targetHint == 0 && e in entries
          && referralCache.root == Insert(old(referralCache.root), SplitPath(info.dfsPathPrefix.value), e)
    {
      if |response.referralEntries| < 1 {
        return Success(ReferralResult(STATUS_OBJECT_PATH_NOT_FOUND, None, None));
      }
      var created := Create(response, domainCache, now);
      if created.Failure? {
        return Failure(BadReferralResponse(created.error));
      }
      var entry := created.value;
      ghost var before := referralCache.root;
      var ok := referralCache.Add(entry);
      if !ok {
        return Failure(NullDfsPathPrefix);
      }
      entries := entries + {entry};
      InsertKeepsEntriesIn(before, SplitPath(entry.info.dfsPathPrefix.value), entry, entries);
      return Success(ReferralResult(STATUS_SUCCESS, Some(entry), None));
    }

    /**
     * HandleDcReferralResponse: a response of version below 3 leaves the
     * domain cache alone and yields no entry; otherwise the entry made from
     * it is upserted.
     */
    method HandleDcReferralResponse(response: ResponseGetDfsReferral) returns (r: Result<ReferralResult, Fault>)
      modifies domainCache
      ensures VersionNumber(response) < 3 ==>
        r == Success(ReferralResult(STATUS_SUCCESS, None, None)) && domainCache.slots == old(domainCache.slots)
      ensures VersionNumber(response) >= 3 && FromResponse(response).Failure? ==>
        r == Failure(BadDomainResponse(FromResponse(response).error)) && domainCache.slots == old(domainCache.slots)
      ensures VersionNumber(response) >= 3 && FromResponse(response).Success? ==>
        var e := FromResponse(response).value;
        if e.domainName.None? then
          r == Failure(NullCacheKey) && domainCache.slots == old(domainCache.slots)
        else
          && r == Success(ReferralResult(STATUS_SUCCESS, None, Some(e)))
          && domainCache.slots == Upsert(old(domainCache.slots), e.domainName.value, e)
    {
      if VersionNumber(response) < 3 {
        return Success(ReferralResult(STATUS_SUCCESS, None, None));
      }
      var entry := FromResponse(response);
      if entry.Failure? {
        return Failure(BadDomainResponse(entry.error));
      }
      var added := domainCache.Add(entry.value);
      if added.Failure? {
        return Failure(NullCacheKey);
      }
      return Success(ReferralResult(STATUS_SUCCESS, None, Some(entry.value)));
    }

    /**
     * HandleReferralResponse: a failed request is passed back untouched; a
     * successful one is read (with the request's path as OriginalPath) and
     * handed to the DC or the root/link processing.
     */
    method HandleReferralResponse(path: DfsPath, output: seq<byte>, requestType: RequestType, status: NTStatus, now: int)
      returns (r: Result<ReferralResult, Fault>)
      requires Valid()
      modifies referralCache, domainCache, this`entries
      ensures Valid() && old(entries) <= entries && fresh(entries - old(entries))
      ensures status != STATUS_SUCCESS ==>
        && r == Success(ReferralResult(status, None, None))
        && referralCache.root == old(referralCache.root) && domainCache.slots == old(domainCache.slots)
      ensures status == STATUS_SUCCESS && DecodeResponse(output, ToPath(path.pathComponents)).Failure? ==>
        && r == Failure(MalformedResponse(DecodeResponse(output, ToPath(path.pathComponents)).error))
        && referralCache.root == old(referralCache.root) && domainCache.slots == old(domainCache.slots)
      ensures requestType == DC ==> referralCache.root == old(referralCache.root)
      ensures requestType != DC ==> domainCache.slots == old(domainCache.slots)
      ensures r.Success? && r.value.status == STATUS_SUCCESS && requestType != DC ==>
        r.value.referralCacheEntry.Some? && r.value.referralCacheEntry.value in entries
      ensures requestType == DC ==>
        && r == DcAnswer(Reply(status, output), path)
        && domainCache.slots == DcSlots(old(domainCache.slots), r)
      ensures requestType != DC ==>
        var answer := old(RootOrLinkAnswer(Reply(status, output), path, domainCache, now));
        && (answer.Declined? ==> r == Success(ReferralResult(answer.status, None, None)) && referralCache.root == old(referralCache.root))
        && (answer.Broken? ==> r == Failure(answer.fault) && referralCache.root == old(referralCache.root))
        && (answer.Referred? ==>
              && r.Success? && r.value.status == STATUS_SUCCESS && r.value.domainCacheEntry.None?
              && r.value.referralCacheEntry.Some?
              && var e := r.value.referralCacheEntry.value;
              && fresh(e) && e.info == answer.info && e.targetHint == 0
              && referralCache.root == Insert(old(referralCache.root), SplitPath(answer.info.dfsPathPrefix.value), e))
    {
      if status != STATUS_SUCCESS {
        return Success(ReferralResult(status, None, None));
      }
      var response := Responses.Read(output, ToPath(path.pathComponents));
      if response.Failure? {
        return Failure(MalformedResponse(response.error));
      }
      if requestType == DC {
        r := HandleDcReferralResponse(response.value);
      } else {
        r := HandleRootOrLinkReferralResponse(response.value, now);
      }
    }

    /** The event of a referral request of type `requestType` for `path`, sent to `hostName`. */
    function ReferralEvent(requestType: RequestType, hostName: WString, path: DfsPath): Event {
      ReferralRequested(requestType, IpcShare(hostName), RequestBytes(path), MaxOutputSize)
    }

    /** What the transport answers to that request as event number `at`. */
    function ReplyTo(at: nat, hostName: WString, path: DfsPath): Reply {
      transport(at, IpcShare(hostName), RequestBytes(path), MaxOutputSize)
    }

    /**
     * SendDfsReferralRequest: a request for the path's ToPath at referral
     * level 4 goes to `{hostName}\IPC$` with a 4096-byte output cap, and the
     * reply is handled.
     */
    method SendDfsReferralRequest(requestType: RequestType, hostName: WString, path: DfsPath, now: int)
      returns (r: Result<ReferralResult, Fault>)
      requires Valid()
      modifies this`trace, this`entries, referralCache, domainCache
      ensures Valid() && old(entries) <= entries && fresh(entries - old(entries))
      ensures trace == old(trace) + [ReferralEvent(requestType, hostName, path)]
      ensures requestType == DC ==>
        var answer := DcAnswer(ReplyTo(|old(trace)|, hostName, path), path);
        && r == answer
        && referralCache.root == old(referralCache.root) && domainCache.slots == DcSlots(old(domainCache.slots), answer)
      ensures requestType != DC ==>
        var answer := old(RootOrLinkAnswer(ReplyTo(|trace|, hostName, path), path, domainCache, now));
        && domainCache.slots == old(domainCache.slots)
        && (answer.Declined? ==> r == Success(ReferralResult(answer.status, None, None)) && referralCache.root == old(referralCache.root))
        && (answer.Broken? ==> r == Failure(answer.fault) && referralCache.root == old(referralCache.root))
        && (answer.Referred? ==>
              && r.Success? && r.value.status == STATUS_SUCCESS && r.value.domainCacheEntry.None?
              && r.value.referralCacheEntry.Some?
              && var e := r.value.referralCacheEntry.value;
              && fresh(e) && e in entries && e.info == answer.info && e.targetHint == 0
              && referralCache.root == Insert(old(referralCache.root), SplitPath(answer.info.dfsPathPrefix.value), e))
    {
      var request := RequestGetDfsReferral(MaxReferralLevel, ToPath(path.pathComponents));
      var buffer := GetBytes(request);
      var share := IpcShare(hostName);
      var reply := transport(|trace|, share, buffer[..], MaxOutputSize);
      trace := trace + [ReferralRequested(requestType, share, buffer[..], MaxOutputSize)];
      r := HandleReferralResponse(path, reply.output, requestType, reply.status, now);
    }

    // -------------------------------------------------------------------------
    // The steps.
    // -------------------------------------------------------------------------

    /** Runs the caller's operation on the current path (Step8 and Step12). */
    method InvokeAction(state: ResolveState) returns (status: NTStatus)
      modifies this`trace
      ensures status == Answer(state.action, |old(trace)|, ToPath(state.path.pathComponents))
      ensures trace == old(trace) + [ActionInvoked(ToPath(state.path.pathComponents))]
    {
      var path := ToPath(state.path.pathComponents);
      status := Answer(state.action, |trace|, path);
      trace := trace + [ActionInvoked(path)];
    }

    /** Step12: not a DFS path; the operation runs on the path unchanged. */
    method Step12(state: ResolveState) returns (outcome: Outcome)
      modifies this`trace, state`steps
      ensures outcome == Completed(Answer(state.action, |old(trace)|, ToPath(state.path.pathComponents)))
      ensures trace == old(trace) + [ActionInvoked(ToPath(state.path.pathComponents))]
      ensures state.steps == old(state.steps) + [old(state.Entering(12, NoArg))]
    {
      state.steps := state.steps + [state.Entering(12, NoArg)];
      var status := InvokeAction(state);
      return Completed(status);
    }

    /** Step8: the operation runs on the resolved path. */
    method Step8(state: ResolveState, lookup: ReferralCacheEntry) returns (status: NTStatus)
      modifies this`trace
      ensures status == Answer(state.action, |old(trace)|, ToPath(state.path.pathComponents))
      ensures trace == old(trace) + [ActionInvoked(ToPath(state.path.pathComponents))]
    {
      status := InvokeAction(state);
    }

    /**
     * The body of Step3's loop: splice the target at offset `k` of the run
     * over the initial path and run the operation there (Step8).
     */
    method AttemptTarget(state: ResolveState, lookup: ReferralCacheEntry, initialPath: DfsPath, prefix: WString, target: TargetSetEntry,
                         ghost paths: seq<DfsPath>, ghost strs: seq<WString>, ghost s0: nat, ghost h0: nat, ghost k: nat)
      returns (status: NTStatus)
      requires h0 + k < |paths| == |strs|
      requires paths[h0 + k] == ReplacePrefix(initialPath, prefix, target.targetPath)
      requires strs[h0 + k] == ToPath(paths[h0 + k].pathComponents)
      requires s0 + k == |trace|
      modifies this`trace, state`path, state`isDfsPath
      ensures state.path == paths[h0 + k] && state.isDfsPath
      ensures status == AnswerAt(state.action, s0, strs, h0, k)
      ensures trace == old(trace) + [ActionInvoked(strs[h0 + k])]
    {
      state.path := ReplacePrefix(initialPath, prefix, target.targetPath);
      state.isDfsPath := true;
      status := Step8(state, lookup);
    }

    /**
     * Step3's loop: from TargetHint on, splice each target over the initial
     * path, run the operation there, and stop on STATUS_SUCCESS or
     * STATUS_PATH_NOT_COVERED (leaving the hint on that target) or when no
     * target is left. `paths` are the spliced paths, one per target, and
     * `strs` their ToPath strings.
     */
    method TryTargets(state: ResolveState, lookup: ReferralCacheEntry, initialPath: DfsPath, prefix: WString,
                      ghost paths: seq<DfsPath>, ghost strs: seq<WString>)
      returns (outcome: Outcome)
      requires lookup.targetHint < |lookup.info.targetList| == |paths| == |strs|
      requires forall h {:trigger lookup.info.targetList[h], paths[h]} :: 0 <= h < |paths| ==>
        paths[h] == ReplacePrefix(initialPath, prefix, lookup.info.targetList[h].targetPath) && strs[h] == ToPath(paths[h].pathComponents)
      modifies this`trace, state`path, state`isDfsPath, lookup`targetHint
      ensures var h0 := old(lookup.targetHint);
        var run := RunFrom(state.action, |old(trace)|, strs, h0, 0);
        && trace == old(trace) + Attempts(strs, h0, run.final + 1)
        && outcome == Completed(run.last)
        && lookup.targetHint == (if StopsStep3(run.last) then h0 + run.final else |paths|)
        && state.path == paths[h0 + run.final]
        && state.isDfsPath
    {
      ghost var s0, h0 := |trace|, lookup.targetHint;
      var target := lookup.TargetHintEntry();
      var result: Option<NTStatus> := None;
      ghost var count: nat := 0;
      ghost var final: nat := 0;
      while target.Some?
        invariant lookup.targetHint == h0 + count
        invariant target == lookup.TargetHintEntry()
        invariant h0 + count <= |paths|
        invariant trace == old(trace) + Attempts(strs, h0, count)
        invariant result.Some? <==> count > 0
        invariant forall j :: 0 <= j < count ==> !StopsStep3(AnswerAt(state.action, s0, strs, h0, j))
        invariant count > 0 ==>
          && count == final + 1
          && result.value == AnswerAt(state.action, s0, strs, h0, final)
          && state.path == paths[h0 + final] && state.isDfsPath
        decreases |paths| - lookup.targetHint
      {
        assert target.value == lookup.info.targetList[h0 + count];
        var status := AttemptTarget(state, lookup, initialPath, prefix, target.value, paths, strs, s0, h0, count);
        result := Some(status);
        AttemptsSnoc(old(trace), strs, h0, count);
        final := count;
        count := count + 1;
        if status == STATUS_SUCCESS || status == STATUS_PATH_NOT_COVERED {
          RunOfAttempts(state.action, s0, strs, h0, 0, final);
          return Completed(status);
        }
        target := lookup.NextTargetHint();
      }
      RunOfAttempts(state.action, s0, strs, h0, 0, final);
      return Completed(if result.Some? then result.value else STATUS_DATA_ERROR);
    }

    /**
     * What Step3 leaves behind: with no target from the hint on,
     * STATUS_DATA_ERROR and nothing done; with a null DfsPathPrefix, the
     * splice's fault and nothing done; otherwise the operation tried on each
     * target's spliced path in turn from the hint on until one answers
     * STATUS_SUCCESS or STATUS_PATH_NOT_COVERED, the hint left on that
     * target (past the list when none does) and the path on the last one tried.
     */
    twostate predicate TriedFromHint(state: ResolveState, lookup: ReferralCacheEntry, outcome: Outcome)
      reads this`trace, state`path, state`isDfsPath, lookup`targetHint
    {
      && (old(lookup.targetHint) >= |lookup.info.targetList| ==>
            && outcome == Completed(STATUS_DATA_ERROR)
            && trace == old(trace) && lookup.targetHint == old(lookup.targetHint))
      && (old(lookup.targetHint) < |lookup.info.targetList| && lookup.info.dfsPathPrefix.None? ==>
            && outcome == Faulted(NullReference)
            && trace == old(trace) && lookup.targetHint == old(lookup.targetHint))
      && (old(lookup.targetHint) < |lookup.info.targetList| && lookup.info.dfsPathPrefix.Some? ==>
            var list, h0 := lookup.info.targetList, old(lookup.targetHint);
            var paths := Spliced(old(state.path), lookup.info.dfsPathPrefix.value, list);
            var run := RunFrom(state.action, |old(trace)|, PathStrings(paths), h0, 0);
            && trace == old(trace) + Attempts(PathStrings(paths), h0, run.final + 1)
            && outcome == Completed(run.last)
            && lookup.targetHint == (if StopsStep3(run.last) then h0 + run.final else |list|)
            && state.path == paths[h0 + run.final]
            && state.isDfsPath)
    }

    /**
     * Step3: try the entry's targets from TargetHint on, each spliced over
     * the path the step started from (see TryTargets). With no target left
     * it answers STATUS_DATA_ERROR; a null DfsPathPrefix makes the splice
     * throw.
     */
    method TryTargetsFromHint(state: ResolveState, lookup: ReferralCacheEntry) returns (outcome: Outcome)
      modifies this`trace, state`path, state`isDfsPath, lookup`targetHint
      ensures old(lookup.targetHint) >= |lookup.info.targetList| ==>
        && outcome == Completed(STATUS_DATA_ERROR)
        && trace == old(trace) && lookup.targetHint == old(lookup.targetHint)
      ensures old(lookup.targetHint) < |lookup.info.targetList| && lookup.info.dfsPathPrefix.None? ==>
        && outcome == Faulted(NullReference)
        && trace == old(trace) && lookup.targetHint == old(lookup.targetHint)
      ensures old(lookup.targetHint) < |lookup.info.targetList| && lookup.info.dfsPathPrefix.Some? ==>
        var list, h0 := lookup.info.targetList, old(lookup.targetHint);
        var paths := Spliced(old(state.path), lookup.info.dfsPathPrefix.value, list);
        var run := RunFrom(state.action, |old(trace)|, PathStrings(paths), h0, 0);
        && trace == old(trace) + Attempts(PathStrings(paths), h0, run.final + 1)
        && outcome == Completed(run.last)
        && lookup.targetHint == (if StopsStep3(run.last) then h0 + run.final else |list|)
        && state.path == paths[h0 + run.final]
        && state.isDfsPath
    {
      var initialPath := state.path;
      var target := lookup.TargetHintEntry();
      if target.None? {
        return Completed(STATUS_DATA_ERROR);
      }
      if lookup.info.dfsPathPrefix.None? {
        return Faulted(NullReference);
      }
      outcome := TrySplicedTargets(state, lookup, initialPath, lookup.info.dfsPathPrefix.value);
    }

    /** Step 3 once the prefix is known: the targets' paths are the spliced ones. */
    method TrySplicedTargets(state: ResolveState, lookup: ReferralCacheEntry, initialPath: DfsPath, prefix: WString)
      returns (outcome: Outcome)
      requires lookup.targetHint < |lookup.info.targetList|
      modifies this`trace, state`path, state`isDfsPath, lookup`targetHint
      ensures var list, h0 := lookup.info.targetList, old(lookup.targetHint);
        var paths := Spliced(initialPath, prefix, list);
        var run := RunFrom(state.action, |old(trace)|, PathStrings(paths), h0, 0);
        && trace == old(trace) + Attempts(PathStrings(paths), h0, run.final + 1)
        && outcome == Completed(run.last)
        && lookup.targetHint == (if StopsStep3(run.last) then h0 + run.final else |list|)
        && state.path == paths[h0 + run.final]
        && state.isDfsPath
    {
      ghost var paths := Spliced(initialPath, prefix, lookup.info.targetList);
      ghost var strs := PathStrings(paths);
      SplicedPaths(initialPath, prefix, lookup.info.targetList, paths, strs);
      outcome := TryTargets(state, lookup, initialPath, prefix, paths, strs);
    }

    // -------------------------------------------------------------------------
    // The steps, chained. Each keeps Valid, only adds events and entries, and
    // logs its number; Step9's restart of Step1 and Step11's of Step2 each use
    // one unit of fuel.
    // -------------------------------------------------------------------------

    /** Step1: a single component or IPC$ goes straight to the operation, anything else to Step2. */
    method Step1(state: ResolveState, fuel: nat) returns (outcome: Outcome)
      requires Valid()
      modifies this`trace, this`entries, referralCache, domainCache, entries`targetHint, state
      ensures Valid() && old(entries) <= entries && fresh(entries - old(entries)) && old(trace) <= trace
      ensures Shortcut(old(state.path)) ==>
        var path := ToPath(old(state.path).pathComponents);
        && outcome == Completed(Answer(state.action, |old(trace)|, path))
        && trace == old(trace) + [ActionInvoked(path)]
        && referralCache.root == old(referralCache.root) && domainCache.slots == old(domainCache.slots)
        && state.steps == old(state.steps) + [old(state.Entering(1, NoArg)), old(state.Entering(12, NoArg))]
      ensures !Shortcut(old(state.path)) ==>
        old(state.steps) + [old(state.Entering(1, NoArg)), old(state.Entering(2, NoArg))] <= state.steps
      decreases fuel, 12
    {
      state.steps := state.steps + [state.Entering(1, NoArg)];
      if HasOnlyOnePathComponent(state.path) || IsIpc(state.path) {
        outcome := Step12(state);
      } else {
        outcome := Step2(state, fuel);
      }
    }

    /** Step2: the cache lookup decides between Step5, Step9, Step4 and Step3, and hands the entry found on. */
    method Step2(state: ResolveState, fuel: nat) returns (outcome: Outcome)
      requires Valid()
      modifies this`trace, this`entries, referralCache, domainCache, entries`targetHint, state
      ensures Valid() && old(entries) <= entries && fresh(entries - old(entries)) && old(trace) <= trace
      ensures var lookup := old(referralCache.Lookup(state.path));
        var route := CacheRouteOf(lookup, state.now);
        var here := old(state.Entering(2, NoArg));
        var next := if lookup.None? || route == 5 then NoArg else ReferralArg(lookup.value);
        old(state.steps) + [here, here.(step := route, arg := next)] <= state.steps
      decreases fuel, 11
    {
      state.steps := state.steps + [state.Entering(2, NoArg)];
      var lookup := referralCache.Lookup(state.path);
      if lookup.None? || (lookup.value.IsExpired(state.now) && lookup.value.IsRoot()) {
        outcome := Step5(state, fuel);
        return;
      }
      GetInEntries(referralCache.root, state.path.pathComponents, entries);
      if lookup.value.IsExpired(state.now) {
        outcome := Step9(state, lookup.value, fuel);
      } else if lookup.value.IsLink() {
        outcome := Step4(state, lookup.value, fuel);
      } else {
        outcome := Step3(state, lookup.value);
      }
    }

    /** Step3: the entry's targets from the hint on, as TryTargetsFromHint states. */
    method Step3(state: ResolveState, lookup: ReferralCacheEntry) returns (outcome: Outcome)
      requires Valid() && lookup in entries
      modifies this`trace, state, lookup`targetHint
      ensures Valid() && old(trace) <= trace
      ensures state.steps == old(state.steps) + [old(state.Entering(3, ReferralArg(lookup)))]
      ensures outcome.Completed? || outcome == Faulted(NullReference)
      ensures TriedFromHint(state, lookup, outcome)
      decreases 0, 1
    {
      ghost var here := state.Entering(3, ReferralArg(lookup));
      outcome := TryTargetsFromHint(state, lookup);
      state.steps := state.steps + [here];
    }

    /** Step4: an interlink outside SYSVOL and NETLOGON goes to Step11, anything else to Step3, with the same entry. */
    method Step4(state: ResolveState, lookup: ReferralCacheEntry, fuel: nat) returns (outcome: Outcome)
      requires Valid() && lookup in entries
      modifies this`trace, this`entries, referralCache, domainCache, entries`targetHint, state
      ensures Valid() && old(entries) <= entries && fresh(entries - old(entries)) && old(trace) <= trace
      ensures var here := old(state.Entering(4, ReferralArg(lookup)));
        old(state.steps) + [here, here.(step := LinkRouteOf(here.path, lookup))] <= state.steps
      decreases fuel, 4
    {
      state.steps := state.steps + [state.Entering(4, ReferralArg(lookup))];
      if IsSysVolOrNetLogon(state.path) {
        outcome := Step3(state, lookup);
      } else if lookup.IsInterlink() {
        outcome := Step11(state, lookup, fuel);
      } else {
        outcome := Step3(state, lookup);
      }
    }

    /**
     * Step5's DC hint: a domain entry with a hint is used as it is; with an
     * empty one, a DC referral request goes to the bootstrap DC, its failure
     * ends in Step13, and the entry its response gives is used instead.
     */
    method DcHintOf(entry: DomainCacheEntry, path: DfsPath, now: int) returns (r: Result<DomainCacheEntry, Outcome>)
      requires Valid()
      modifies this`trace, this`entries, referralCache, domainCache
      ensures Valid() && old(entries) <= entries && fresh(entries - old(entries))
      ensures r == DcHintAnswer(entry, ReplyTo(|old(trace)|, bootstrapDc, path), path)
      ensures entry.dcHint != [] ==>
        && trace == old(trace)
        && referralCache.root == old(referralCache.root) && domainCache.slots == old(domainCache.slots)
      ensures entry.dcHint == [] ==>
        && trace == old(trace) + [ReferralEvent(DC, bootstrapDc, path)]
        && referralCache.root == old(referralCache.root)
        && domainCache.slots == DcSlots(old(domainCache.slots), DcAnswer(ReplyTo(|old(trace)|, bootstrapDc, path), path))
    {
      if entry.dcHint != [] {
        return Success(entry);
      }
      var referralResult := SendDfsReferralRequest(DC, bootstrapDc, path, now);
      if referralResult.Failure? {
        return Failure(Faulted(referralResult.error));
      }
      if referralResult.value.status != STATUS_SUCCESS {
        return Failure(Step13(referralResult.value.status));
      }
      if referralResult.value.domainCacheEntry.None? {
        return Failure(Faulted(NullReference));
      }
      return Success(referralResult.value.domainCacheEntry.value);
    }

    /**
     * Step5: the first component is looked up in the domain cache. Unknown,
     * it is the root referral's host; known with an empty DC hint, a DC
     * referral request goes to the bootstrap DC first; then SYSVOL and
     * NETLOGON go to Step10 and anything else to Step6 with the DC hint as host.
     */
    method Step5(state: ResolveState, fuel: nat) returns (outcome: Outcome)
      requires Valid()
      modifies this`trace, this`entries, referralCache, domainCache, entries`targetHint, state
      ensures Valid() && old(entries) <= entries && fresh(entries - old(entries)) && old(trace) <= trace
      ensures old(state.path).pathComponents == [] ==>
        outcome == Faulted(NoPathComponent) && trace == old(trace) && state.steps == old(state.steps) + [old(state.Entering(5, NoArg))]
      ensures old(state.path).pathComponents != [] ==>
        var here := old(state.Entering(5, NoArg));
        var domain := old(domainCache.Lookup(state.path.pathComponents[0]));
        && (domain.None? ==>
              var host := old(state.path).pathComponents[0];
              old(state.steps) + [here, here.(step := 6, hostName := Some(host), resolvedDomainEntry := false)] <= state.steps)
        && (domain.Some? && domain.value.dcHint == [] ==>
              |trace| > |old(trace)| && trace[|old(trace)|] == ReferralEvent(DC, bootstrapDc, old(state.path)))
        && (domain.Some? ==>
              var known := DcHintAnswer(domain.value, ReplyTo(|old(trace)|, bootstrapDc, old(state.path)), old(state.path));
              && (known.Failure? ==> outcome == known.error && state.steps == old(state.steps) + [here])
              && (known.Success? ==> old(state.steps) + [here, KnownDomainNext(here, known.value)] <= state.steps))
      ensures old(state.steps) + [old(state.Entering(5, NoArg))] <= state.steps
      decreases fuel, 10
    {
      state.steps := state.steps + [state.Entering(5, NoArg)];
      if state.path.pathComponents == [] {
        return Faulted(NoPathComponent);
      }
      var potentialDomain := state.path.pathComponents[0];
      var domainCacheEntry := domainCache.Lookup(potentialDomain);
      if domainCacheEntry.None? {
        state.hostName := Some(potentialDomain);
        state.resolvedDomainEntry := false;
        outcome := Step6(state, fuel);
        return;
      }
      outcome := Step5KnownDomain(state, domainCacheEntry.value, fuel);
    }

    /**
     * Step5 once the first component names a cached domain: its DC hint
     * (asked for when empty), then Step10 for SYSVOL and NETLOGON, Step6 for
     * anything else.
     */
    method Step5KnownDomain(state: ResolveState, domainCacheEntry: DomainCacheEntry, fuel: nat) returns (outcome: Outcome)
      requires Valid() && state.path.pathComponents != []
      modifies this`trace, this`entries, referralCache, domainCache, entries`targetHint, state
      ensures Valid() && old(entries) <= entries && fresh(entries - old(entries)) && old(trace) <= trace
      ensures old(state.steps) <= state.steps
      ensures domainCacheEntry.dcHint == [] ==>
        |trace| > |old(trace)| && trace[|old(trace)|] == ReferralEvent(DC, bootstrapDc, old(state.path))
      ensures var known := DcHintAnswer(domainCacheEntry, ReplyTo(|old(trace)|, bootstrapDc, old(state.path)), old(state.path));
        && (known.Failure? ==> outcome == known.error && state.steps == old(state.steps))
        && (known.Success? ==> old(state.steps) + [KnownDomainNext(old(state.Entering(5, NoArg)), known.value)] <= state.steps)
      decreases fuel, 9
    {
      var withHint := DcHintOf(domainCacheEntry, state.path, state.now);
      if withHint.Failure? {
        return withHint.error;
      }
      outcome := Step5Route(state, withHint.value, fuel);
    }

    /** The end of Step5 with the domain's entry: SYSVOL and NETLOGON go to Step10, anything else to Step6 with the DC hint as host. */
    method Step5Route(state: ResolveState, entry: DomainCacheEntry, fuel: nat) returns (outcome: Outcome)
      requires Valid() && state.path.pathComponents != []
      modifies this`trace, this`entries, referralCache, domainCache, entries`targetHint, state
      ensures Valid() && old(entries) <= entries && fresh(entries - old(entries)) && old(trace) <= trace
      ensures old(state.steps) + [KnownDomainNext(old(state.Entering(5, NoArg)), entry)] <= state.steps
      decreases fuel, 8
    {
      if IsSysVolOrNetLogon(state.path) {
        outcome := Step10(state, entry, fuel);
      } else {
        state.hostName := Some(entry.dcHint);
        state.resolvedDomainEntry := true;
        outcome := Step6(state, fuel);
      }
    }

    /**
     * Step6: the ROOT referral request goes to the path's first component
     * (not to the host name Step5 chose). On success Step7 follows with the
     * new entry; otherwise the route is Step13, Step14 or the operation on
     * the unchanged path.
     */
    method Step6(state: ResolveState, fuel: nat) returns (outcome: Outcome)
      requires Valid() && state.path.pathComponents != []
      modifies this`trace, this`entries, referralCache, domainCache, entries`targetHint, state
      ensures Valid() && old(entries) <= entries && fresh(entries - old(entries)) && old(trace) <= trace
      ensures var request := ReferralEvent(ROOT, old(state.path).pathComponents[0], old(state.path));
        |trace| > |old(trace)| && trace[|old(trace)|] == request
      ensures var request := ReferralEvent(ROOT, old(state.path).pathComponents[0], old(state.path));
        var reply := ReplyTo(|old(trace)|, old(state.path).pathComponents[0], old(state.path));
        var answer := old(RootOrLinkAnswer(reply, state.path, domainCache, state.now));
        var here := old(state.Entering(6, NoArg));
        var route := RootFailureRouteOf(here.resolvedDomainEntry, here.isDfsPath);
        var path := ToPath(here.path.pathComponents);
        && (answer.Broken? ==>
              outcome == Faulted(answer.fault) && trace == old(trace) + [request] && state.steps == old(state.steps) + [here])
        && (answer.Declined? ==>
              && referralCache.root == old(referralCache.root) && domainCache.slots == old(domainCache.slots)
              && (route == 13 ==> outcome == Step13(answer.status) && trace == old(trace) + [request])
              && (route == 14 ==> outcome == Step14(answer.status) && trace == old(trace) + [request])
              && (route == 12 ==>
                    && outcome == Completed(Answer(state.action, |old(trace)| + 1, path))
                    && trace == old(trace) + [request, ActionInvoked(path)])
              && state.steps == old(state.steps) + [here] + (if route == 12 then [here.(step := 12)] else []))
        && (answer.Referred? ==>
              && |state.steps| > |old(state.steps)| + 1 && state.steps[|old(state.steps)|] == here
              && MadeFrom(state.steps[|old(state.steps)| + 1], here.(step := 7), answer.info)
              && fresh(state.steps[|old(state.steps)| + 1].arg.entry))
      ensures old(state.steps) + [old(state.Entering(6, NoArg))] <= state.steps
      decreases fuel, 7
    {
      ghost var here := state.Entering(6, NoArg);
      var result := SendDfsReferralRequest(ROOT, state.path.pathComponents[0], state.path, state.now);
      state.steps := state.steps + [here];
      outcome := Step6Follow(state, result, fuel);
    }

    /**
     * The end of Step6: a new entry goes to Step7; a failed ROOT request ends
     * in Step13 (the domain was resolved), Step14 (the path is a DFS path) or
     * the operation on the unchanged path.
     */
    method Step6Follow(state: ResolveState, result: Result<ReferralResult, Fault>, fuel: nat) returns (outcome: Outcome)
      requires Valid()
      requires result.Success? && result.value.status == STATUS_SUCCESS ==>
        result.value.referralCacheEntry.Some? && result.value.referralCacheEntry.value in entries
      modifies this`trace, this`entries, referralCache, domainCache, entries`targetHint, state
      ensures Valid() && old(entries) <= entries && fresh(entries - old(entries)) && old(trace) <= trace
      ensures old(state.steps) <= state.steps
      ensures result.Failure? ==> outcome == Faulted(result.error) && trace == old(trace) && state.steps == old(state.steps)
      ensures result.Success? && result.value.status != STATUS_SUCCESS ==>
        var route := RootFailureRouteOf(old(state.resolvedDomainEntry), old(state.isDfsPath));
        var path := ToPath(old(state.path).pathComponents);
        && referralCache.root == old(referralCache.root) && domainCache.slots == old(domainCache.slots)
        && (route == 13 ==> outcome == Step13(result.value.status) && trace == old(trace))
        && (route == 14 ==> outcome == Step14(result.value.status) && trace == old(trace))
        && (route == 12 ==>
              && outcome == Completed(Answer(state.action, |old(trace)|, path))
              && trace == old(trace) + [ActionInvoked(path)])
        && state.steps == old(state.steps) + (if route == 12 then [old(state.Entering(12, NoArg))] else [])
      ensures result.Success? && result.value.status == STATUS_SUCCESS ==>
        var entry := result.value.referralCacheEntry.value;
        |state.steps| > |old(state.steps)| && state.steps[|old(state.steps)|] == old(state.Entering(7, ReferralArg(entry)))
      decreases fuel, 6
    {
      if result.Failure? {
        return Faulted(result.error);
      }
      if result.value.status == STATUS_SUCCESS {
        outcome := Step7(state, result.value.referralCacheEntry.value, fuel);
      } else if state.resolvedDomainEntry {
        outcome := Step13(result.value.status);
      } else if state.isDfsPath {
        outcome := Step14(result.value.status);
      } else {
        outcome := Step12(state);
      }
    }

    /** Step7: the new entry's kind picks Step3 (root) or Step4 (link), with that entry. */
    method Step7(state: ResolveState, lookup: ReferralCacheEntry, fuel: nat) returns (outcome: Outcome)
      requires Valid() && lookup in entries
      modifies this`trace, this`entries, referralCache, domainCache, entries`targetHint, state
      ensures Valid() && old(entries) <= entries && fresh(entries - old(entries)) && old(trace) <= trace
      ensures var here := old(state.Entering(7, ReferralArg(lookup)));
        old(state.steps) + [here, here.(step := if lookup.IsRoot() then 3 else 4)] <= state.steps
      decreases fuel, 5
    {
      state.steps := state.steps + [state.Entering(7, ReferralArg(lookup))];
      if lookup.IsRoot() {
        outcome := Step3(state, lookup);
      } else {
        outcome := Step4(state, lookup, fuel);
      }
    }

    /**
     * Step9: an expired link. With no root entry for the first two
     * components, the path's expired entries are cleared and resolution
     * restarts at Step1; otherwise a LINK request goes to the root entry's
     * current target, and its new entry picks Step3 (root) or Step4 with the
     * expired entry (link).
     */
    method Step9(state: ResolveState, lookup: ReferralCacheEntry, fuel: nat) returns (outcome: Outcome)
      requires Valid() && lookup in entries
      modifies this`trace, this`entries, referralCache, domainCache, entries`targetHint, state
      ensures Valid() && old(entries) <= entries && fresh(entries - old(entries)) && old(trace) <= trace
      ensures old(state.steps) + [old(state.Entering(9, ReferralArg(lookup)))] <= state.steps
      ensures var here := old(state.Entering(9, ReferralArg(lookup)));
        old(referralCache.Lookup(RootPathOf(state.path))).None? ==>
          && (fuel == 0 ==>
                && outcome == OutOfFuel && trace == old(trace) && state.steps == old(state.steps) + [here]
                && referralCache.root == DeleteExpired(old(referralCache.root), old(state.path).pathComponents, state.now))
          && (fuel > 0 ==> old(state.steps) + [here, here.(step := 1, arg := NoArg)] <= state.steps)
      ensures var here := old(state.Entering(9, ReferralArg(lookup)));
        var root := old(referralCache.Lookup(RootPathOf(state.path)));
        var k := |old(state.steps)| + 1;
        root.Some? ==>
          var hint := old(root.value.TargetHintEntry());
          && (hint.None? ==> outcome == Faulted(NullReference) && trace == old(trace) && state.steps == old(state.steps) + [here])
          && (hint.Some? ==>
                var request := ReferralEvent(LINK, hint.value.targetPath, old(state.path));
                var reply := ReplyTo(|old(trace)|, hint.value.targetPath, old(state.path));
                var answer := old(RootOrLinkAnswer(reply, state.path, domainCache, state.now));
                && |trace| > |old(trace)| && trace[|old(trace)|] == request
                && (answer.Broken? ==> outcome == Faulted(answer.fault) && trace == old(trace) + [request] && state.steps == old(state.steps) + [here])
                && (answer.Declined? ==> outcome == Step14(answer.status) && trace == old(trace) + [request] && state.steps == old(state.steps) + [here])
                && (answer.Referred? && answer.info.rootOrLink as nat == ServerTypeRoot ==>
                      && |state.steps| > k
                      && MadeFrom(state.steps[k], here.(step := 3), answer.info) && fresh(state.steps[k].arg.entry))
                && (answer.Referred? && answer.info.rootOrLink as nat != ServerTypeRoot ==>
                      old(state.steps) + [here, here.(step := 4)] <= state.steps))
      decreases fuel, 10
    {
      var rootReferralCacheEntry := referralCache.Lookup(RootPathOf(state.path));
      if rootReferralCacheEntry.None? {
        state.steps := state.steps + [state.Entering(9, ReferralArg(lookup))];
        referralCache.ClearPath(state.path, state.now);
        DeleteExpiredKeepsEntriesIn(old(referralCache.root), state.path.pathComponents, state.now, entries);
        if fuel == 0 {
          return OutOfFuel;
        }
        outcome := Step1(state, fuel - 1);
        return;
      }
      var hint := rootReferralCacheEntry.value.TargetHintEntry();
      if hint.None? {
        state.steps := state.steps + [state.Entering(9, ReferralArg(lookup))];
        return Faulted(NullReference);
      }
      outcome := Step9Refresh(state, lookup, hint.value.targetPath, fuel);
    }

    /**
     * Step9 once the root entry's current target is known: the LINK request
     * goes to `target`; a failure ends in Step14, and the new entry picks
     * Step3 (root, with the new entry) or Step4 (link, with the expired entry).
     */
    method Step9Refresh(state: ResolveState, lookup: ReferralCacheEntry, target: WString, fuel: nat)
      returns (outcome: Outcome)
      requires Valid() && lookup in entries
      modifies this`trace, this`entries, referralCache, domainCache, entries`targetHint, state
      ensures Valid() && old(entries) <= entries && fresh(entries - old(entries)) && old(trace) <= trace
      ensures old(state.steps) + [old(state.Entering(9, ReferralArg(lookup)))] <= state.steps
      ensures var here := old(state.Entering(9, ReferralArg(lookup)));
        var k := |old(state.steps)| + 1;
        var request := ReferralEvent(LINK, target, old(state.path));
        var reply := ReplyTo(|old(trace)|, target, old(state.path));
        var answer := old(RootOrLinkAnswer(reply, state.path, domainCache, state.now));
        && |trace| > |old(trace)| && trace[|old(trace)|] == request
        && (answer.Broken? ==> outcome == Faulted(answer.fault) && trace == old(trace) + [request] && state.steps == old(state.steps) + [here])
        && (answer.Declined? ==> outcome == Step14(answer.status) && trace == old(trace) + [request] && state.steps == old(state.steps) + [here])
        && (answer.Referred? && answer.info.rootOrLink as nat == ServerTypeRoot ==>
              && |state.steps| > k
              && MadeFrom(state.steps[k], here.(step := 3), answer.info) && fresh(state.steps[k].arg.entry))
        && (answer.Referred? && answer.info.rootOrLink as nat != ServerTypeRoot ==>
              old(state.steps) + [here, here.(step := 4)] <= state.steps)
      decreases fuel, 9
    {
      ghost var here := state.Entering(9, ReferralArg(lookup));
      var result := SendDfsReferralRequest(LINK, target, state.path, state.now);
      state.steps := state.steps + [here];
      outcome := Step9Follow(state, lookup, result, fuel);
    }

    /**
     * The end of Step9: a failed LINK request ends in Step14, and the new
     * entry picks Step3 (root, with the new entry) or Step4 (link, with the
     * expired entry).
     */
    method Step9Follow(state: ResolveState, lookup: ReferralCacheEntry, result: Result<ReferralResult, Fault>, fuel: nat)
      returns (outcome: Outcome)
      requires Valid() && lookup in entries
      requires result.Success? && result.value.status == STATUS_SUCCESS ==>
        result.value.referralCacheEntry.Some? && result.value.referralCacheEntry.value in entries
      modifies this`trace, this`entries, referralCache, domainCache, entries`targetHint, state
      ensures Valid() && old(entries) <= entries && fresh(entries - old(entries)) && old(trace) <= trace
      ensures old(state.steps) <= state.steps
      ensures result.Failure? ==> outcome == Faulted(result.error) && trace == old(trace) && state.steps == old(state.steps)
      ensures result.Success? && result.value.status != STATUS_SUCCESS ==>
        outcome == Step14(result.value.status) && trace == old(trace) && state.steps == old(state.steps)
      ensures result.Success? && result.value.status == STATUS_SUCCESS ==>
        var refreshed := result.value.referralCacheEntry.value;
        && (refreshed.IsRoot() ==>
              |state.steps| > |old(state.steps)| && state.steps[|old(state.steps)|] == old(state.Entering(3, ReferralArg(refreshed))))
        && (!refreshed.IsRoot() ==> old(state.steps) + [old(state.Entering(4, ReferralArg(lookup)))] <= state.steps)
      decreases fuel, 8
    {
      if result.Failure? {
        return Faulted(result.error);
      }
      if result.value.status != STATUS_SUCCESS {
        return Step14(result.value.status);
      }
      var refreshed := result.value.referralCacheEntry.value;
      if refreshed.IsRoot() {
        outcome := Step3(state, refreshed);
      } else {
        outcome := Step4(state, lookup, fuel);
      }
    }

    /** Step10: a SYSVOL referral request to the DC hint; success goes to Step3 with the new entry, failure to Step13. */
    method Step10(state: ResolveState, domainCacheEntry: DomainCacheEntry, fuel: nat) returns (outcome: Outcome)
      requires Valid()
      modifies this`trace, this`entries, referralCache, domainCache, entries`targetHint, state
      ensures Valid() && old(entries) <= entries && fresh(entries - old(entries)) && old(trace) <= trace
      ensures var here := old(state.Entering(10, DomainArg(domainCacheEntry)));
        var request := ReferralEvent(SYSVOL, domainCacheEntry.dcHint, old(state.path));
        var reply := ReplyTo(|old(trace)|, domainCacheEntry.dcHint, old(state.path));
        var answer := old(RootOrLinkAnswer(reply, state.path, domainCache, state.now));
        var k := |old(state.steps)| + 1;
        && |trace| > |old(trace)| && trace[|old(trace)|] == request
        && (answer.Broken? ==> outcome == Faulted(answer.fault) && trace == old(trace) + [request] && state.steps == old(state.steps) + [here])
        && (answer.Declined? ==> outcome == Step13(answer.status) && trace == old(trace) + [request] && state.steps == old(state.steps) + [here])
        && (answer.Referred? ==>
              && |state.steps| > k && state.steps[k - 1] == here
              && MadeFrom(state.steps[k], here.(step := 3), answer.info) && fresh(state.steps[k].arg.entry))
      ensures old(state.steps) + [old(state.Entering(10, DomainArg(domainCacheEntry)))] <= state.steps
      decreases fuel, 7
    {
      ghost var here := state.Entering(10, DomainArg(domainCacheEntry));
      var result := SendDfsReferralRequest(SYSVOL, domainCacheEntry.dcHint, state.path, state.now);
      state.steps := state.steps + [here];
      outcome := Step10Follow(state, result);
    }

    /** The end of Step10: a new entry goes to Step3, a failed SYSVOL request ends in Step13. */
    method Step10Follow(state: ResolveState, result: Result<ReferralResult, Fault>) returns (outcome: Outcome)
      requires Valid()
      requires result.Success? && result.value.status == STATUS_SUCCESS ==>
        result.value.referralCacheEntry.Some? && result.value.referralCacheEntry.value in entries
      modifies this`trace, entries`targetHint, state
      ensures Valid() && old(trace) <= trace
      ensures old(state.steps) <= state.steps
      ensures result.Failure? ==> outcome == Faulted(result.error) && trace == old(trace) && state.steps == old(state.steps)
      ensures result.Success? && result.value.status != STATUS_SUCCESS ==>
        outcome == Step13(result.value.status) && trace == old(trace) && state.steps == old(state.steps)
      ensures result.Success? && result.value.status == STATUS_SUCCESS ==>
        var entry := result.value.referralCacheEntry.value;
        |state.steps| > |old(state.steps)| && state.steps[|old(state.steps)|] == old(state.Entering(3, ReferralArg(entry)))
    {
      if result.Failure? {
        return Faulted(result.error);
      }
      if result.value.status == STATUS_SUCCESS {
        outcome := Step3(state, result.value.referralCacheEntry.value);
      } else {
        outcome := Step13(result.value.status);
      }
    }

    /**
     * Step11: the path's prefix is replaced by the entry's current target,
     * the path is marked DFS and resolution goes back to Step2.
     */
    method Step11(state: ResolveState, lookup: ReferralCacheEntry, fuel: nat) returns (outcome: Outcome)
      requires Valid() && lookup in entries
      modifies this`trace, this`entries, referralCache, domainCache, entries`targetHint, state
      ensures Valid() && old(entries) <= entries && fresh(entries - old(entries)) && old(trace) <= trace
      ensures lookup.info.dfsPathPrefix.None? || old(lookup.TargetHintEntry()).None? ==>
        && outcome == Faulted(NullReference) && trace == old(trace)
        && state.steps == old(state.steps) + [old(state.Entering(11, ReferralArg(lookup)))]
      ensures lookup.info.dfsPathPrefix.Some? && old(lookup.TargetHintEntry()).Some? ==>
        var here := old(state.Entering(11, ReferralArg(lookup)));
        var spliced := ReplacePrefix(here.path, lookup.info.dfsPathPrefix.value, old(lookup.TargetHintEntry()).value.targetPath);
        && (fuel == 0 ==>
              && outcome == OutOfFuel && trace == old(trace) && state.steps == old(state.steps) + [here]
              && state.path == spliced && state.isDfsPath)
        && (fuel > 0 ==>
              old(state.steps) + [here, here.(step := 2, path := spliced, isDfsPath := true, arg := NoArg)] <= state.steps)
      ensures old(state.steps) + [old(state.Entering(11, ReferralArg(lookup)))] <= state.steps
      decreases fuel, 3
    {
      state.steps := state.steps + [state.Entering(11, ReferralArg(lookup))];
      var hint := lookup.TargetHintEntry();
      if hint.None? || lookup.info.dfsPathPrefix.None? {
        return Faulted(NullReference);
      }
      state.path := ReplacePrefix(state.path, lookup.info.dfsPathPrefix.value, hint.value.targetPath);
      state.isDfsPath := true;
      if fuel == 0 {
        return OutOfFuel;
      }
      outcome := Step2(state, fuel - 1);
    }

    // -------------------------------------------------------------------------
    // Entry points.
    // -------------------------------------------------------------------------

    /** Start: the SmbPath's UNC form becomes the DfsPath, and resolution begins at Step1. */
    method Start(smbPath: SmbPath, action: (nat, WString) -> NTStatus, now: int, fuel: nat) returns (outcome: Outcome)
      requires Valid()
      modifies this`trace, this`entries, referralCache, domainCache, entries`targetHint
      ensures Valid() && old(entries) <= entries && fresh(entries - old(entries)) && old(trace) <= trace
      ensures var dfsPath := FromUncPath(ToUncPath(smbPath));
        var path := ToPath(dfsPath.pathComponents);
        Shortcut(dfsPath) ==>
          && outcome == Completed(Answer(action, |old(trace)|, path))
          && trace == old(trace) + [ActionInvoked(path)]
          && referralCache.root == old(referralCache.root) && domainCache.slots == old(domainCache.slots)
    {
      var dfsPath := FromUncPath(ToUncPath(smbPath));
      var state := new ResolveState(dfsPath, action, now);
      outcome := Step1(state, fuel);
    }

    /**
     * Resolve: a path SmbPath.Parse refuses (null, or with no non-empty
     * segment) fails before anything is sent; otherwise as Start.
     */
    method Resolve(path: Option<WString>, action: (nat, WString) -> NTStatus, now: int, fuel: nat) returns (outcome: Outcome)
      requires Valid()
      modifies this`trace, this`entries, referralCache, domainCache, entries`targetHint
      ensures Valid() && old(entries) <= entries && fresh(entries - old(entries)) && old(trace) <= trace
      ensures Parse(path).Failure? ==>
        && outcome == Faulted(UnparsablePath(Parse(path).error)) && trace == old(trace)
        && referralCache.root == old(referralCache.root) && domainCache.slots == old(domainCache.slots)
      ensures Parse(path).Success? ==>
        var dfsPath := FromUncPath(ToUncPath(Parse(path).value));
        var p := ToPath(dfsPath.pathComponents);
        Shortcut(dfsPath) ==>
          && outcome == Completed(Answer(action, |old(trace)|, p))
          && trace == old(trace) + [ActionInvoked(p)]
          && referralCache.root == old(referralCache.root) && domainCache.slots == old(domainCache.slots)
    {
      var smbPath := Parse(path);
      if smbPath.Failure? {
        return Faulted(UnparsablePath(smbPath.error));
      }
      outcome := Start(smbPath.value, action, now, fuel);
    }
  }
}
