# DFS referral client, modelled in Dafny

This project models the client side of the DFS referral protocol (MS-DFSC) in
SMBLibrary.Contrib. That is the code that turns a UNC path into a concrete
`\server\share\path` by asking servers for referrals and caching what they answer.
The model has five parts:

- **Paths.** `DfsPath` (`dfs_path.dfy`) is a path as a list of components. It is
  split on `\` and `/`, printed back, spliced over a matched prefix, and
  classified as one component, `IPC$`, or `SYSVOL`/`NETLOGON`. `SmbPath`
  (`smb_path.dfy`) is host, share and path-within-share. It covers rewriting,
  parsing, printing as UNC, parent and child paths, and the comparisons. Both
  are pure.
- **Referral codec.** `little_endian.dfy` holds the little-endian readers and
  writers and NUL-terminated UTF-16LE strings. `request.dfy` is
  REQ_GET_DFS_REFERRAL: the `GetBytes` method over an `array` and the decoding
  constructor. `referral.dfy` holds the DFS_REFERRAL_V1 to V3 records.
  `response.dfy` is RESP_GET_DFS_REFERRAL: its header, then a loop over the
  records that follows each record's `Size`. The request and the V1 to V3
  records have encoders in the model and round-trip lemmas. The response has
  no encoder here: its decoder is specified by where each record starts and
  which version the response reports (`DecodedRecordsInWireOrder`,
  `DecodedVersion`).
- **Caches.**
  - `DomainCache` is a class over a case-insensitive map.
  - `DomainCacheEntry` is built from a DC referral.
  - `ReferralCacheEntry` is a class whose `TargetHint` cursor only moves
    forward.
  - `ReferralCacheNode` is a trie over lower-cased components, and
    `ReferralCache` is a class that holds the trie root.
- **Resolver.** `DfsPathResolver` (`resolver.dfy`) is a class with one method
  per step, Step1 to Step14 of section 3.1.4.1 of MS-DFSC, as the source
  writes them. It also has the request and response handlers. `ResolveState`
  is the mutable context of one resolution. The transport (status and output
  buffer for a request) and the caller's operation are function-valued oracles.
  Each oracle receives the number of events so far, and every request and
  operation call is recorded in `trace`. A ghost log, `ResolveState.steps`,
  records every step entered (except Step8, Step13 and Step14) with the path,
  host name and flags it started from and the cache entry it was handed, so
  each step's contract can name the step that follows it and what that step
  receives. Step13, Step14 and every other exception become `Outcome` values.
- **Helpers and the stream.** `smb_helpers.dfy` models `SmbHelpers`: status
  validation, and the tables that translate System.IO's open vocabulary into
  SMB2's. Flag enums are sets of symbolic flags; a flag an enum does not name
  carries its number, which is never the number of a named one, and an
  undefined FileMode or SeekOrigin likewise carries a number no named value has. `smb_file_stream.dfy`
  models `SmbFileStream`, a class with `length` and `position`. Its `Read` and
  `Write` chunking loops are methods proved against loop-specification
  functions. `ReadFile` and `WriteFile` are oracles.

.NET strings are sequences of UTF-16 code units (`Text.WString`). `null` is
`Option.None`, and a thrown exception is a `Result.Failure` or an `Outcome`.
The clock is a `now` parameter read once per resolution. The helpers
`LittleEndianConverter`, `ByteReader` and `ByteWriter` are not part of this
model's source. They are specified here as little-endian u16/u32 reads and
writes, and as UTF-16LE code units up to a 0x0000 unit, with the `ref`
overload moving past the terminator. A read past the buffer's end is a failure.

## Model

| member | source | states |
|---|---|---|
| DfsPaths.SplitPathWellFormed | Dfs/DfsPath.cs:83-86 | Every component SplitPath returns is non-empty and holds neither `\` nor `/` |
| DfsPaths.SplitUnitsFrom | Dfs/DfsPath.cs:83-86 | Every code unit of every component comes from the split string (nothing is invented) |
| DfsPaths.SplitAppend | Dfs/DfsPath.cs:83-86 | Splitting distributes over a separator: the two sides split independently and the results are concatenated |
| DfsPaths.SplitLeadingSeparator | Dfs/DfsPath.cs:83-86 | A leading separator contributes no component (empty entries are removed) |
| DfsPaths.SplitComponentThenRest | Dfs/DfsPath.cs:83-86 | A component followed by nothing, or by a separated tail, is split off as the first component |
| DfsPaths.ToPath | Dfs/DfsPath.cs:88-98 | A non-empty component list prints as a string that starts with `\` |
| DfsPaths.ToPathAppend | Dfs/DfsPath.cs:88-98 | Printing is a homomorphism: ToPath(a + b) == ToPath(a) + ToPath(b), since each component is printed as `\` and itself |
| DfsPaths.SplitPathOfToPath | Dfs/DfsPath.cs:83-98 | SplitPath(ToPath(cs)) == cs for non-empty, separator-free components |
| DfsPaths.FromUncPath | Dfs/DfsPath.cs:30-33 | The components built from a string are well formed: non-empty and free of `\` |
| DfsPaths.ReplacePrefixShape | Dfs/DfsPath.cs:40-51 | ReplacePrefix is SplitPath(target) followed by the path's components past index \|SplitPath(prefix)\|, in order |
| DfsPaths.ReplaceWholePath | Dfs/DfsPath.cs:45 | A prefix with at least as many components as the path is replaced by exactly the target's components |
| DfsPaths.ReplacePrefixIgnoresPrefixContents | Dfs/DfsPath.cs:42-47 | Two prefixes with the same component count splice identically: the prefix's contents are never compared |
| DfsPaths.ReplaceMatchedPrefix | Dfs/DfsPath.cs:40-51 | Over a prefix the path really starts with, the result prints as the target's path followed by the rest of the original path |
| DfsPaths.ReplacePrefixWellFormed | Dfs/DfsPath.cs:40-51 | Splicing keeps a path's components well formed, so the result prints and re-splits to the same components |
| DfsPaths.ClassificationExclusive | Dfs/DfsPath.cs:53-81 | HasOnlyOnePathComponent, IsIpc and IsSysVolOrNetLogon exclude each other, and a one-component path is neither IPC$ nor SYSVOL/NETLOGON |
| DfsPaths.ClassificationIsCaseSensitive | Dfs/DfsPath.cs:55-81 | The second component is compared ordinally: `ipc$`, `sysvol` and `netlogon` in lower case are not recognised |
| SmbPaths.RewritePath | Dfs/SmbPath.cs:125-147 | null and "" come back unchanged; otherwise every `/` becomes `\`, then one leading `\\` pair, or else one leading `\`, is dropped, and the rest is kept unit for unit |
| SmbPaths.Parse | Dfs/SmbPath.cs:107-123 | A successful parse has a non-empty host, a share that is absent or non-empty, and no path-within-share without a share |
| SmbPaths.ParseSegments | Dfs/SmbPath.cs:107-123 | A null path fails with its own error; otherwise the segments of the path with `/` read as `\` decide: none fails, one gives a host, two a host and share, more a host, share and the rest joined with `\` |
| SmbPaths.ToUncPathStartsWithHost | Dfs/SmbPath.cs:83-105 | The UNC form starts with `\\` and the host, and is exactly that when the share is null or empty |
| SmbPaths.ToUncPathOfSegments | Dfs/SmbPath.cs:83-105 | For segment-shaped parts, the UNC form is `\\`, the host, `\` share and `\` path |
| SmbPaths.ToUncPathShareWithBackslash | Dfs/SmbPath.cs:88-96 | A share given as `\share` prints exactly as the same share given as `share`: the `\` before the share is added only when the share does not start with one |
| SmbPaths.ParseOfToUncPath | Dfs/SmbPath.cs:83-123 | Parse(ToUncPath(p)) == p when host and share are single segments and the path is absent or made of segments joined by `\` |
| SmbPaths.Parent | Dfs/SmbPath.cs:31-46 | Host and share are kept; a path with no path-within-share is its own parent; otherwise the parent's path is absent or strictly shorter |
| SmbPaths.Child | Dfs/SmbPath.cs:63-81 | The child constructor fails exactly when the parent's share is null or empty; the child keeps host and share, and under a parent path its path starts with that path followed by `\` |
| SmbPaths.ChildSegments | Dfs/SmbPath.cs:63-81 | Whenever the parent has a share, the child's `\`-segments are the parent path's segments followed by the child path's segments (with `/` read as `\`), whether or not the parent has a path |
| SmbPaths.ParentOfChild | Dfs/SmbPath.cs:31-81 | Adding a one-segment child and then taking the parent gives the original path back |
| SmbPaths.ComparisonsNest | Dfs/SmbPath.cs:149-162 | Equals is equality of the three parts; it implies IsOnSameShare, which implies IsOnSameHost, and both need a non-null other path |
| SmbPaths.LastIndexOf | Dfs/SmbPath.cs:40 | The result is -1 exactly when the unit is absent; otherwise it is a position holding the unit, with no later one |
| LittleEndian.ReadU16OfU16Bytes | Dfs/Messages/RequestGetDfsReferral.cs:19-27 | The u16 reader reads back what the u16 writer stores |
| LittleEndian.ReadU32At | Dfs/Messages/DfsReferralV2.cs:9-10 | The u32 reader finds a value wherever its four little-endian bytes sit |
| LittleEndian.ToInt32 | Dfs/Messages/DfsReferralV2.cs:10 | The unchecked (int) cast of a uint is the 32-bit pattern read as two's complement: identity below 2^31, minus 2^32 above |
| LittleEndian.ReadUtf16ZReadsBytes | Dfs/Messages/DfsReferralV1.cs:11 | What the string reader returns is exactly the buffer's content from the offset: the string's UTF-16LE bytes, a 0x0000 terminator, and the next offset just past it |
| LittleEndian.ReadUtf16ZAt | Dfs/Messages/DfsReferralV3V4.cs:31 | A NUL-free string followed by its terminator reads back whole, at any position in any buffer |
| Request.GetBytes | Dfs/Messages/RequestGetDfsReferral.cs:23-30 | The array GetBytes fills is the level in two little-endian bytes, the name's UTF-16LE units from byte 2, and two zero bytes |
| Request.EncodingLength | Dfs/Messages/RequestGetDfsReferral.cs:25 | The encoding is 2 + 2·\|RequestFileName\| + 2 bytes long |
| Request.DecodeOfEncoding | Dfs/Messages/RequestGetDfsReferral.cs:17-30 | The decoding constructor gives back the request exactly when the name holds no U+0000 |
| Referrals.ReadProcV1 | Dfs/Messages/DfsReferralV1.cs:9-12 | v1 sets Path and nothing else; a failure is a read past the buffer |
| Referrals.ReadProcV2 | Dfs/Messages/DfsReferralV2.cs:7-18 | v2 sets Ttl, Path, DfsPath and DfsAlternatePath (all non-null) and nothing else |
| Referrals.ReadProcV3 | Dfs/Messages/DfsReferralV3V4.cs:9-35 | v3 sets TimeToLive; without the name-list bit it sets the three paths, with it SpecialName and ExpandedNames; nothing else changes |
| Referrals.ExpandedNamesAt | Dfs/Messages/DfsReferralV3V4.cs:26-33 | Exactly `count` NUL-free names are read, or the read fails past the buffer |
| Referrals.DecodeReferral | Dfs/Messages/ResponseGetDfsReferral.cs:51-73 | Only versions 1, 2 and 3 decode and any other (4 included) is UnsupportedVersion; the header fields are the u16s at +0, +2, +4 and +6; which fields each version and layout leaves null; v1 and v2 leave TimeToLive 0, and v3 leaves Ttl 0 |
| Referrals.ReadExpandedNames | Dfs/Messages/DfsReferralV3V4.cs:29-33 | The name loop with its `ref` cursor computes ExpandedNamesAt |
| Referrals.ReadReferral | Dfs/Messages/DfsReferral.cs:21-33 | The imperative Read (header, then the version's ReadProc at the same offset) computes DecodeReferral |
| Referrals.ReadHeaderAt | Dfs/Messages/DfsReferral.cs:23-26 | The four header u16s read back from a written header, and the string fields stay null |
| Referrals.DecodeV1OfEncoding | Dfs/Messages/DfsReferralV1.cs:9-12 | A v1 record written anywhere decodes to its header and path, with Ttl 0 and DfsPath null |
| Referrals.DecodeV2OfEncoding | Dfs/Messages/DfsReferralV2.cs:7-18 | A v2 record written anywhere decodes to its fields, with Ttl as the int cast of the wire TTL |
| Referrals.DecodeV3OfEncoding | Dfs/Messages/DfsReferralV3V4.cs:9-21 | A v3 record without the name-list bit decodes to its fields, with the TTL in TimeToLive and Ttl 0 |
| Referrals.DecodeV3NameListOfEncoding | Dfs/Messages/DfsReferralV3V4.cs:22-34 | A v3 name-list record, with buffer-absolute name offsets, decodes to its special name and names in order, with Path and DfsPath null |
| Referrals.ExpandedNamesOfEncoding | Dfs/Messages/DfsReferralV3V4.cs:29-33 | The name reader inverts the list writer, at any position: the corrected reading of the name list |
| Referrals.ReadNameListAsWritten | Dfs/Messages/DfsReferral.cs:19 | As written, the name loop succeeds only when there are no names to add |
| Referrals.NameListAsWrittenNeverYieldsNames | Dfs/Messages/DfsReferralV3V4.cs:29-33 | As written, no buffer and offset yield a non-empty name list, and a well-formed list faults on the first Add; the corrected reader returns the names |
| Responses.PatchDfsPath | Dfs/Messages/ResponseGetDfsReferral.cs:39-42 | A record's DfsPath is never null afterwards; a set one is kept and a null one becomes OriginalPath |
| Responses.DecodeResponse | Dfs/Messages/ResponseGetDfsReferral.cs:27-44 | PathConsumed, NumberOfReferrals and the header flags are the u16s at 0, 2 and 4; on success exactly NumberOfReferrals records are kept |
| Responses.ReadRecords | Dfs/Messages/ResponseGetDfsReferral.cs:33-43 | The record loop, with its `ibuffer` cursor starting at 8 and advancing by each record's Size, computes DecodeRecords |
| Responses.Read | Dfs/Messages/ResponseGetDfsReferral.cs:27-44 | The imperative Read computes DecodeResponse |
| Responses.RecordStartStep | Dfs/Messages/ResponseGetDfsReferral.cs:36 | Record i + 1 starts at record i's start plus record i's Size |
| Responses.DecodedRecordsInWireOrder | Dfs/Messages/ResponseGetDfsReferral.cs:33-43 | Record i of a decoded response is the record found at its start (byte 8, then each previous start plus Size) with DfsPath patched, so none has a null DfsPath |
| Responses.DecodedVersion | Dfs/Messages/ResponseGetDfsReferral.cs:14 | VersionNumber is 0 exactly when there are no records, is otherwise 1, 2 or 3, and a first record of any other version fails the response |
| DomainCacheEntries.FromResponse | Dfs/Caching/DomainCacheEntry.cs:32-49 | Construction succeeds exactly with one referral that has the NameListReferral bit and at least one expanded name; each failure has its own error; DomainName is SpecialName, DcList is ExpandedNames in order, DcHint is DcList[0] |
| DomainCacheEntries.DomainNameOfDecodedResponse | Dfs/Caching/DomainCacheEntry.cs:46 | An entry built from a decoded response always has a non-null DomainName |
| DomainCaches.FindAfterUpsert | Dfs/Caching/DomainCache.cs:37-43 | After an upsert the name, in any case, finds the new entry, and every other name finds what it found before |
| DomainCaches.FindIgnoresCase | Dfs/Caching/DomainCache.cs:27 | Names that differ only in case address the same slot |
| DomainCaches.UpsertReplaces | Dfs/Caching/DomainCache.cs:41 | Upserting a name twice keeps only the later entry |
| DomainCaches.DomainCache.constructor | Dfs/Caching/DomainCache.cs:27 | A new cache finds nothing |
| DomainCaches.DomainCache.Add | Dfs/Caching/DomainCache.cs:37-43 | Add replaces the entry under the name (any case) and changes no other name; a null name is the dictionary's exception and no change |
| ReferralCacheEntries.Targets | Dfs/Caching/ReferralCacheEntry.cs:76-81 | One target per referral, in order, each with that referral's Path and not failed |
| ReferralCacheEntries.EntryInfoOf | Dfs/Caching/ReferralCacheEntry.cs:43-82 | A null Path fails first, then no referrals; with every Path set and at least one referral, construction fails exactly when the header flags do not make it an interlink, there is a single referral and its Path splits into no components (PathComponents[0], NoPathComponents); on success prefix, kind and Ttl come from the first referral, Expires is now + Ttl, TargetFailback is the header bit, and the target list is Targets |
| ReferralCacheEntries.InterlinkRule | Dfs/Caching/ReferralCacheEntry.cs:62-70 | Interlink holds when ReferralServers is set and StorageServers clear; failing that, only a single-referral response consults the domain cache with the first component of its Path |
| ReferralCacheEntries.HintEntry | Dfs/Caching/ReferralCacheEntry.cs:41 | TargetHintEntry is non-null exactly when the hint is in range, and is then a member of the list |
| ReferralCacheEntries.HintPastEndStaysNull | Dfs/Caching/ReferralCacheEntry.cs:84-88 | Once the hint has run past the end, every later hint is null |
| ReferralCacheEntries.ReferralCacheEntry.constructor | Dfs/Caching/ReferralCacheEntry.cs:34 | TargetHint starts at 0 |
| ReferralCacheEntries.ReferralCacheEntry.NextTargetHint | Dfs/Caching/ReferralCacheEntry.cs:84-88 | The hint grows by exactly one, and the result is the new TargetHintEntry, null once the old one was null |
| ReferralCacheEntries.KindsExclusive | Dfs/Caching/ReferralCacheEntry.cs:37-40 | IsRoot and IsLink exclude each other, and IsInterlink implies IsLink |
| ReferralCacheEntries.ExpiryAfterCreation | Dfs/Caching/ReferralCacheEntry.cs:39 | An entry is expired exactly when strictly more than Ttl ms have passed since it was made |
| ReferralCacheEntries.Create | Dfs/Caching/ReferralCacheEntry.cs:43-82 | The constructor succeeds exactly when EntryInfoOf does, making a fresh entry with that information and hint 0, and otherwise fails with EntryInfoOf's error |
| ReferralCacheNodes.Reached | Dfs/Caching/ReferralCacheNode.cs:67-80 | The lookup consumes at most as many components as the path has |
| ReferralCacheNodes.InsertEntryAt | Dfs/Caching/ReferralCacheNode.cs:46-57 | AddReferralEntry sets the entry at exactly the inserted path and leaves every other node's entry unchanged |
| ReferralCacheNodes.GetAfterInsert | Dfs/Caching/ReferralCacheNode.cs:46-80 | After AddReferralEntry(cs, e), GetReferralEntry(cs) answers e |
| ReferralCacheNodes.GetIsDeepestReached | Dfs/Caching/ReferralCacheNode.cs:67-80 | GetReferralEntry answers the entry of the deepest node it reaches, null included |
| ReferralCacheNodes.NotLongestPrefix | Dfs/Caching/ReferralCacheNode.cs:67-80 | An ancestor's entry can hide behind an entry-less deeper node: the lookup is not a longest-prefix match |
| ReferralCacheNodes.GetIgnoresCase | Dfs/Caching/ReferralCacheNode.cs:38-80 | Paths that differ only in case look up the same entry |
| ReferralCacheNodes.DeleteExpiredEntryAt | Dfs/Caching/ReferralCacheNode.cs:82-102 | DeleteExpiredReferralEntry removes the entries at and below the first expired non-root node on the path and keeps every other entry; with no such node it changes nothing |
| ReferralCacheNodes.DeleteExpiredNothingToDo | Dfs/Caching/ReferralCacheNode.cs:86-101 | With no expired non-root entry on the walked path, the trie is unchanged |
| ReferralCacheNodes.GetOfEmpty | Dfs/Caching/ReferralCacheNode.cs:104-111 | After Clear, every lookup answers null |
| ReferralCaches.ReferralCache.constructor | Dfs/Caching/ReferralCache.cs:23 | The root starts empty |
| ReferralCaches.ReferralCache.Add | Dfs/Caching/ReferralCache.cs:35-39 | The entry goes in under SplitPath(DfsPathPrefix), so looking up that prefix answers it; a null prefix throws and changes nothing |
| ReferralCaches.ReferralCache.ClearPath | Dfs/Caching/ReferralCache.cs:30-33 | Clear(path) is DeleteExpiredReferralEntry on the path's components, not an unconditional clear |
| ReferralCaches.ReferralCache.Clear | Dfs/Caching/ReferralCache.cs:41-44 | Afterwards every lookup answers null |
| Resolvers.CacheDispatch | Dfs/DfsPathResolver.cs:78-98 | A miss or an expired root goes to Step5, an expired link to Step9, a live link to Step4 and a live root to Step3 |
| Resolvers.RootFailureDispatch | Dfs/DfsPathResolver.cs:216-236 | A failed ROOT request goes to Step13 if a domain entry was resolved, else to Step14 if the path is known to be DFS, else to Step12 |
| Resolvers.RunStopsAtFirstStop | Dfs/DfsPathResolver.cs:112-129 | Step3 tries targets in order: every attempt before the last got neither SUCCESS nor PATH_NOT_COVERED, and the last one did or the list ran out |
| Resolvers.RunOfAttempts | Dfs/DfsPathResolver.cs:112-129 | The converse: failed attempts followed by one that stops, or by the end of the list, make up the whole run |
| Resolvers.SplicedPaths | Dfs/DfsPathResolver.cs:114 | Each attempt's path is the original path with the prefix replaced by that target, and the operation receives its ToPath |
| Resolvers.ResolveState.constructor | Dfs/DfsPathResolver.cs:46-50 | A new state holds the path and the action, with ResolvedDomainEntry and IsDfsPath false and no host name |
| Resolvers.DfsPathResolver.constructor | Dfs/DfsPathResolver.cs:33-34 | Both caches start empty and nothing has been sent |
| Resolvers.DfsPathResolver.HandleRootOrLinkReferralResponse | Dfs/DfsPathResolver.cs:419-430 | No referrals gives STATUS_OBJECT_PATH_NOT_FOUND; an entry that cannot be built or has a null DfsPathPrefix fails; in those cases the cache is unchanged. Otherwise a fresh entry with the response's fields and TargetHint 0 is inserted under SplitPath of its prefix and returned with STATUS_SUCCESS |
| Resolvers.DfsPathResolver.HandleDcReferralResponse | Dfs/DfsPathResolver.cs:432-442 | Below version 3 the domain cache is unchanged and no entry is produced; an entry that cannot be built or has a null domain name fails with the cache unchanged; otherwise the entry built from the response is upserted under its name and returned |
| Resolvers.RootOrLinkAnswer | Dfs/DfsPathResolver.cs:388-430 | How a ROOT, LINK or SYSVOL reply is judged: a failed status is declined as it is, an empty referral list is declined with STATUS_OBJECT_PATH_NOT_FOUND, an undecodable reply, an entry that cannot be built or a null DfsPathPrefix is broken; a referred answer always carries a DfsPathPrefix |
| Resolvers.DcAnswer | Dfs/DfsPathResolver.cs:388-442 | How a DC reply is judged: a successful answer never carries a referral cache entry, and one that carries a domain entry has STATUS_SUCCESS and a domain name (below version 3 there is no entry) |
| Resolvers.DfsPathResolver.HandleReferralResponse | Dfs/DfsPathResolver.cs:388-417 | A failed status comes back as it is with both caches unchanged; a reply that does not decode (with the path as OriginalPath) fails with both caches unchanged; a DC reply gives DcAnswer with the domain entry upserted, and any other gives RootOrLinkAnswer's verdict: declined and broken leave the referral cache unchanged, referred returns a fresh entry with that answer's fields and TargetHint 0, inserted under SplitPath of its prefix |
| Resolvers.DfsPathResolver.SendDfsReferralRequest | Dfs/DfsPathResolver.cs:373-386 | Exactly one request event is added: to `{host}\IPC$`, carrying the encoding of (level 4, ToPath of the path) and the 4096-byte cap; the transport's reply to that event is handled as HandleReferralResponse states, so the result and both caches are DcAnswer's or RootOrLinkAnswer's for that reply |
| Resolvers.DfsPathResolver.InvokeAction | Dfs/DfsPathResolver.cs:348-351 | The operation runs once, as the next event, on ToPath of the current path, and its status is returned |
| Resolvers.DfsPathResolver.Step1 | Dfs/DfsPathResolver.cs:58-66 | A one-component or IPC$ path logs Step1 then Step12 and runs the operation once on the unchanged path, with no request and no cache change; any other path logs Step1 then Step2 with the same state |
| Resolvers.DfsPathResolver.Step2 | Dfs/DfsPathResolver.cs:78-98 | After Step2 the log shows the step CacheDispatch picks for the cache lookup of the path, entered with the entry found (none for Step5) |
| Resolvers.DfsPathResolver.TryTargets | Dfs/DfsPathResolver.cs:112-129 | The loop's events are exactly the run of attempts from TargetHint; the hint ends at the stopping target (or past the end); the outcome is the last status |
| Resolvers.DfsPathResolver.TryTargetsFromHint | Dfs/DfsPathResolver.cs:107-130 | With no target left, STATUS_DATA_ERROR and no call; with a null prefix, a null-reference fault and no call; otherwise the events are the run of attempts from TargetHint over the original path spliced with each target, the hint ends at the stopping target (or past the end) and the outcome is the last status |
| Resolvers.DfsPathResolver.TrySplicedTargets | Dfs/DfsPathResolver.cs:112-129 | With a non-null prefix and a target at the hint, the events are the run of attempts from TargetHint over the spliced paths, the hint ends at the stopping target (or past the end), the path is the last one tried and the outcome is the last status |
| Resolvers.DfsPathResolver.AttemptTarget | Dfs/DfsPathResolver.cs:114-116 | One pass of Step3's loop: the path becomes the initial path with the prefix replaced by this target, IsDfsPath is set, and the operation runs once on it through Step8 |
| Resolvers.DfsPathResolver.Step3 | Dfs/DfsPathResolver.cs:107-130 | Step3 is logged with its entry and takes no further step; as TriedFromHint: with no target left, STATUS_DATA_ERROR and no call; with a null prefix, a null-reference fault and no call; otherwise the operation on each spliced target in turn from the hint until SUCCESS or PATH_NOT_COVERED, the hint left on that target, the path on the last one tried |
| Resolvers.DfsPathResolver.Step4 | Dfs/DfsPathResolver.cs:139-152 | Step4 is logged with its entry and followed by Step11 (an interlink whose second component is not SYSVOL or NETLOGON) or Step3, with the same entry |
| Resolvers.DfsPathResolver.DcHintOf | Dfs/DfsPathResolver.cs:178-191 | A non-empty DcHint keeps the domain entry, with nothing sent; an empty one sends one DC request to the bootstrap DC and the result is DcHintAnswer of its reply: the entry the response built (version 3 or more), Step13 with the status on a failed reply, the request's fault, or a null-reference fault when no entry came back; the domain cache gets the upsert DcAnswer names |
| Resolvers.DcHintOfDecodedResponse | Dfs/DfsPathResolver.cs:178-191 | With an empty DcHint, the entry Step5 goes on with is exactly the one FromResponse builds from a version 3 or later response (HandleDcReferralResponse, lines 432-436); below version 3 it is a null-reference fault, a failed status gives Step13 and an undecodable reply the decoder's fault |
| Resolvers.DfsPathResolver.Step5 | Dfs/DfsPathResolver.cs:166-202 | A path with no components faults with nothing sent; an unknown first component leads to Step6 with that component as host and ResolvedDomainEntry false; a known domain with an empty DC hint first sends a DC request to the bootstrap DC; when DcHintAnswer gives an entry, the next step is Step10 with it (SYSVOL/NETLOGON) or Step6 with its DcHint as host and ResolvedDomainEntry true, and otherwise its outcome ends the resolution |
| Resolvers.DfsPathResolver.Step5KnownDomain | Dfs/DfsPathResolver.cs:178-201 | For a cached domain: an empty DC hint first sends a DC request to the bootstrap DC; DcHintAnswer's failure ends the resolution with nothing logged, and its entry leads to Step10 (SYSVOL/NETLOGON) or Step6 with the DcHint as host and ResolvedDomainEntry true |
| Resolvers.DfsPathResolver.Step5Route | Dfs/DfsPathResolver.cs:193-201 | With the domain's entry, SYSVOL and NETLOGON go to Step10 with that entry and anything else to Step6 with its DcHint as host and ResolvedDomainEntry true |
| Resolvers.DfsPathResolver.Step6 | Dfs/DfsPathResolver.cs:216-236 | The first event is a ROOT request to PathComponents[0], not to the host Step5 chose; a referred answer leads to Step7 with the fresh entry holding that answer's fields; a declined one leaves the caches unchanged and takes the route RootFailureDispatch names: Step13 or Step14 with the status, or Step12 running the operation once on the path; a broken one faults |
| Resolvers.DfsPathResolver.Step6Follow | Dfs/DfsPathResolver.cs:220-235 | After the ROOT request: success goes to Step7 with the returned entry; failure leaves the caches unchanged and goes to Step13, Step14 or Step12 as RootFailureDispatch names |
| Resolvers.DfsPathResolver.Step7 | Dfs/DfsPathResolver.cs:242-250 | Step7 is logged with its entry and followed by Step3 (root entry) or Step4 (link entry), with that entry |
| Resolvers.DfsPathResolver.Step8 | Dfs/DfsPathResolver.cs:266-269 | The operation runs once on ToPath of the resolved path |
| Resolvers.DfsPathResolver.Step9 | Dfs/DfsPathResolver.cs:283-307 | With no root entry for the first two components, the path's expired entries are cleared and Step1 follows (out of fuel, the clearing alone); with one whose current target is missing, a null-reference fault; otherwise as Step9Refresh with that target |
| Resolvers.DfsPathResolver.Step9Refresh | Dfs/DfsPathResolver.cs:294-306 | The first event is a LINK request to the root entry's current target; a declined answer ends in Step14 and a broken one faults, nothing else sent; a referred root answer leads to Step3 with the fresh entry, and a referred link answer to Step4 with the expired entry Step9 started from |
| Resolvers.DfsPathResolver.Step9Follow | Dfs/DfsPathResolver.cs:296-306 | After the LINK request: failure ends in Step14; a returned root entry goes to Step3 with it, a link entry to Step4 with the expired entry |
| Resolvers.DfsPathResolver.Step10 | Dfs/DfsPathResolver.cs:317-327 | The first event is a SYSVOL request to the DC hint for the path; a referred answer leads to Step3 with the fresh entry holding that answer's fields; a declined one ends in Step13 and a broken one faults, with nothing else sent |
| Resolvers.DfsPathResolver.Step10Follow | Dfs/DfsPathResolver.cs:321-326 | After the SYSVOL request: success goes to Step3 with the returned entry, failure ends in Step13 |
| Resolvers.DfsPathResolver.Step11 | Dfs/DfsPathResolver.cs:336-341 | A null prefix or no current target faults with nothing sent; otherwise Step2 follows with the path's prefix replaced by the entry's current target and IsDfsPath set (out of fuel, the state is left so) |
| Resolvers.DfsPathResolver.Step12 | Dfs/DfsPathResolver.cs:348-351 | Step12 is logged and the operation runs once on the path unchanged |
| Resolvers.DfsPathResolver.Start | Dfs/DfsPathResolver.cs:42-53 | The DfsPath is SplitPath of the SmbPath's UNC form; when that path has one component or is on IPC$, the operation runs once on it, with no request and no cache change |
| Resolvers.DfsPathResolver.Resolve | Dfs/DfsPathResolver.cs:36-40 | A path Parse refuses fails before anything is sent or cached; a parsed path of one component or on IPC$ runs the operation once on its UNC form, with no request and no cache change |
| SmbHelpers.ValidateStatusFor | Dfs/SmbHelpers.cs:14-36 | Validation passes exactly when the status is allowed; the five statuses with their own message get that message, and every other status gets the generic one |
| SmbHelpers.ValidateStatus | Dfs/SmbHelpers.cs:9-12 | The overload without a file name behaves as the full one with a null name |
| SmbHelpers.DedicatedMessages | Dfs/SmbHelpers.cs:21-33 | Each of the five dedicated statuses has its own message kind, and no two share one |
| SmbHelpers.NotFoundFailsValidation | Dfs/SmbHelpers.cs:38-44 | A not-found status the caller did not allow always fails validation |
| SmbHelpers.FileModeToCreateDisposition | Dfs/SmbHelpers.cs:58-77 | Every named FileMode maps to the disposition with the same behaviour, Create on a directory to FILE_CREATE, and an unnamed mode to FILE_OPEN |
| SmbHelpers.DestructiveDispositions | Dfs/SmbHelpers.cs:58-77 | The disposition overwrites exactly for Truncate and for Create on a file, and is FILE_CREATE exactly for CreateNew and for Create on a directory |
| SmbHelpers.AccessMaskToFileAccess | Dfs/SmbHelpers.cs:79-86 | Read, Write and Delete are present exactly when GENERIC_READ, GENERIC_WRITE and DELETE are, and nothing else is |
| SmbHelpers.IoAccessToAccessMask | Dfs/SmbHelpers.cs:88-100 | FileAccess Write and Read map by table; ReadWrite and every other value map to GENERIC_ALL |
| SmbHelpers.SmbAccessToAccessMask | Dfs/SmbHelpers.cs:102-117 | Read, Write, Delete and ReadWrite map by table; every other value maps to GENERIC_ALL |
| SmbHelpers.SmbAccessRoundTrip | Dfs/SmbHelpers.cs:79-117 | Back through AccessMaskToFileAccess, the four named values keep what they asked for (Write comes back as ReadWrite), and every other value comes back empty |
| SmbHelpers.IoToSmbFlag | Dfs/SmbHelpers.cs:138-141 | Each FileAccess flag maps to the SmbFileAccess flag with the same number |
| SmbHelpers.IoToSmbAccess | Dfs/SmbHelpers.cs:138-141 | The numeric cast: Read and Write are kept, and FileAccess's unnamed flag 4 becomes Delete (a flag is a single bit, so a combined value such as 3 is the set of its bits) |
| SmbHelpers.CastKeepsFlagValues | Dfs/SmbHelpers.cs:138-141 | The flag numbers set after the cast are exactly those set before |
| SmbHelpers.AccessOverloadsCompared | Dfs/SmbHelpers.cs:88-117 | The two FileAccessToAccessMask overloads agree on Read and Write and differ on ReadWrite |
| SmbHelpers.FileShareToShareAccess | Dfs/SmbHelpers.cs:119-126 | Each of FILE_SHARE_READ, FILE_SHARE_WRITE and FILE_SHARE_DELETE is set exactly when the FileShare holds Read, Write or Delete respectively; Inheritable and the other bits are dropped |
| SmbHelpers.FileShareTranslationExact | Dfs/SmbHelpers.cs:119-126 | Two sharing modes translate alike exactly when they agree on Read, Write and Delete |
| SmbHelpers.FileOptionsToCreateOptions | Dfs/SmbHelpers.cs:128-136 | Exactly one of FILE_DIRECTORY_FILE and FILE_NON_DIRECTORY_FILE, chosen by isDirectory, plus exactly one bit per set option among the four |
| SmbHelpers.CreateOptionsTranslationExact | Dfs/SmbHelpers.cs:128-136 | Two option sets translate alike, for the same kind of object, exactly when they agree on the four named options |
| SmbFileStreams.SmbFileStream.constructor | Dfs/SmbFileStream.cs:35-52 | The handle's mask is SmbAccessToAccessMask of the access, the length is the file's end, and Append starts at the end while every other mode starts at 0 |
| SmbFileStreams.SmbFileStream.SetPosition | Dfs/SmbFileStream.cs:21-33 | Only 0 ≤ value ≤ Length is accepted; otherwise it fails and nothing changes |
| SmbFileStreams.SmbFileStream.Seek | Dfs/SmbFileStream.cs:120-134 | The target from Begin, Current or End goes through the setter, with the same bounds, and is returned |
| SmbFileStreams.SmbFileStream.SetLength | Dfs/SmbFileStream.cs:136-139 | Only the length changes; the position is not clamped |
| SmbFileStreams.SmbFileStream.ReadChunk | Dfs/SmbFileStream.cs:60-78 | One pass of the body: a ReadFile request at the position for min(room, 65536) bytes, the status check, and the position moved by the bytes that arrived |
| SmbFileStreams.SmbFileStream.ReadChunks | Dfs/SmbFileStream.cs:58-81 | The loop's requests, its data, the final position and the count are those of the ReadLoop specification |
| SmbFileStreams.SmbFileStream.Read | Dfs/SmbFileStream.cs:54-83 | Read checks the window, runs ReadLoop from the position with `count` bytes of room, and lands what arrived at `offset`, leaving the rest of the buffer as it was |
| SmbFileStreams.ReadLoopProperties | Dfs/SmbFileStream.cs:54-83 | At most `count` bytes are returned and the position moves by exactly that many; no request is sent with no room or at or past the end; every request is at a position below the length and asks for min(room left, 65536) bytes |
| SmbFileStreams.ReadLoopRequestChain | Dfs/SmbFileStream.cs:58-81 | The first request is at the starting position; every request but the last got STATUS_SUCCESS with non-empty data, and the next request asks right after that data (ReadsChained) |
| SmbFileStreams.SmbFileStream.WriteChunk | Dfs/SmbFileStream.cs:89-110 | One pass of the body: WriteFile of the next min(65536, n) bytes at the position, the status check, the position moved by the bytes written, the length raised to the position, and a short write failing |
| SmbFileStreams.SmbFileStream.Write | Dfs/SmbFileStream.cs:85-113 | Write's requests, final position and length are those of the WriteLoop specification over the window's bytes |
| SmbFileStreams.WriteLoopChunks | Dfs/SmbFileStream.cs:89-111 | Request i carries bytes [65536·i, min(65536·(i+1), n)) of the data, at the starting position plus 65536·i |
| SmbFileStreams.WriteLoopProperties | Dfs/SmbFileStream.cs:85-113 | The requests carry a prefix of the data in order; on success they carry all of it, the position has moved by its length, and the length is the maximum of the old length and the new position |
| SmbFileStreams.CanReadMissesGenericAll | Dfs/SmbFileStream.cs:14-16 | As written, a stream opened for Read\|Delete gets GENERIC_ALL and reports that it can neither read nor write, although the mask grants both |
| SmbFileStreams.RequestedAccessGranted | Dfs/SmbHelpers.cs:102-117 | Every access that asks for Read (Write) yields a mask that grants reading (writing), once GENERIC_ALL counts as granting both |

## Definitions

These definitions carry no contract of their own; the rows named after each
state what they mean.

- `DfsPaths.SplitPath` (Dfs/DfsPath.cs:83-86): SplitPathWellFormed, SplitUnitsFrom, SplitAppend, SplitLeadingSeparator, SplitComponentThenRest, SplitPathOfToPath.
- `DfsPaths.ReplacePrefix` (Dfs/DfsPath.cs:40-51): ReplacePrefixShape, ReplaceWholePath, ReplacePrefixIgnoresPrefixContents, ReplaceMatchedPrefix, ReplacePrefixWellFormed.
- `DfsPaths.HasOnlyOnePathComponent` (Dfs/DfsPath.cs:53), `DfsPaths.IsSysVolOrNetLogon` (Dfs/DfsPath.cs:55-67) and `DfsPaths.IsIpc` (Dfs/DfsPath.cs:69-81): ClassificationExclusive, ClassificationIsCaseSensitive, and the routes of Step1, Step4 and Step5.
- `SmbPaths.ToUncPath` (Dfs/SmbPath.cs:83-105): ToUncPathStartsWithHost, ToUncPathOfSegments, ToUncPathShareWithBackslash, ParseOfToUncPath.
- `SmbPaths.Equals` (Dfs/SmbPath.cs:159-162), `SmbPaths.IsOnSameHost` (Dfs/SmbPath.cs:149-152) and `SmbPaths.IsOnSameShare` (Dfs/SmbPath.cs:154-157): ComparisonsNest.
- `Request.Decode` (Dfs/Messages/RequestGetDfsReferral.cs:17-21): DecodeOfEncoding.
- `Referrals.ReadHeader` (Dfs/Messages/DfsReferral.cs:21-26): ReadHeaderAt.
- `Referrals.ReadProcV2`, `Referrals.ReadProcV3` and `Referrals.DecodeReferral` (Dfs/Messages/DfsReferralV2.cs:7-18, Dfs/Messages/DfsReferralV3V4.cs:7-35, Dfs/Messages/DfsReferral.cs:21-28): ReadProcV2, ReadProcV3, DecodeReferral and the DecodeV*OfEncoding round trips. The unfolding lemmas ReadProcV2Reads, ReadProcV3Reads, ReadProcV3NameListReads and DecodeReferralOfHeader spell out the field offsets for those proofs; Dafny proves them without a body.
- `Responses.VersionNumber` (Dfs/Messages/ResponseGetDfsReferral.cs:14): DecodedVersion.
- `Responses.DecodeRecords` (Dfs/Messages/ResponseGetDfsReferral.cs:33-43): ReadRecords, RecordStartStep, DecodedRecordsInWireOrder, and DecodedVersion for a record of an unsupported version. The unfolding lemma DecodeRecordsFails, which Dafny proves without a body, spells out that a record that fails to read ends the run with its error.
- `DomainCaches.DomainCache.Lookup` (Dfs/Caching/DomainCache.cs:29-35), which is `Find` over the slots: FindAfterUpsert, FindIgnoresCase, UpsertReplaces, DomainCache.Add.
- `ReferralCaches.ReferralCache.Lookup` (Dfs/Caching/ReferralCache.cs:25-28), which is `ReferralCacheNodes.Get` over the root: the Get rows below, and ReferralCache.Add.
- `ReferralCacheEntries.ReferralCacheEntry.IsRoot`, `IsLink`, `IsExpired`, `IsInterlink` and `TargetHintEntry` (Dfs/Caching/ReferralCacheEntry.cs:37-41): KindsExclusive, InterlinkRule, ExpiryAfterCreation, HintEntry, HintPastEndStaysNull, and CacheDispatch for the routes they pick.
- `ReferralCacheNodes.Insert` (Dfs/Caching/ReferralCacheNode.cs:46-57): InsertEntryAt, GetAfterInsert.
- `ReferralCacheNodes.Get` (Dfs/Caching/ReferralCacheNode.cs:67-80): Reached, GetAfterInsert, GetIsDeepestReached, NotLongestPrefix, GetIgnoresCase, GetOfEmpty.
- `ReferralCacheNodes.DeleteExpired` (Dfs/Caching/ReferralCacheNode.cs:82-102): DeleteExpiredEntryAt, DeleteExpiredNothingToDo.
- `SmbHelpers.NotFound` (Dfs/SmbHelpers.cs:38-44): NotFoundFailsValidation.
- `SmbFileStreams.SmbFileStream.CanRead` and `CanWrite` (Dfs/SmbFileStream.cs:14-16): CanReadMissesGenericAll, RequestedAccessGranted.
- `SmbFileStreams.ReadLoop` (Dfs/SmbFileStream.cs:58-81): ReadLoopProperties, ReadLoopRequestChain, and ReadChunks and Read, which are proved against it.
- `SmbFileStreams.WriteLoop` (Dfs/SmbFileStream.cs:89-111): WriteLoopChunks, WriteLoopProperties, and Write, which is proved against it.
- `Resolvers.DfsPathResolver.TriedFromHint` (Dfs/DfsPathResolver.cs:107-130): Step3. `Resolvers.DcHintAnswer` and `Resolvers.DcSlots` (Dfs/DfsPathResolver.cs:178-191): DcHintOf, Step5. `Resolvers.KnownDomainNext` (Dfs/DfsPathResolver.cs:193-201): Step5, Step5KnownDomain, Step5Route.

## Left out

- The network: `GetFileStore` and `DeviceIOControl` are a transport oracle. Only the request parameters are recorded: the `IPC$` share, level 4 and the 4096-byte cap.
- The caller's operation is an oracle from path to status. Its data payload, and the session's retry on STATUS_PATH_NOT_COVERED in `SmbSession.RunAction`, are not modelled.
- Session files: SmbSession, SmbSessionClient, ISmbSessionFactory and SmbFileSystemObject are not part of this model. From SmbFileSystemObject only the 64 KiB read and write sizes are kept.
- Concurrency: the `lock` blocks, `ConcurrentDictionary` and `volatile`. Every operation runs alone.
- `DateTime.Now` is a `now` parameter, read once per resolution and once per entry creation.
- Exception message texts are left out. Failures are error variants, not strings.
- Resolvers.DfsPathResolver.Resolve: the Step9→Step1 restart and the Step11→Step2 re-entry are bounded by a `fuel` parameter. Running out of fuel is an `OutOfFuel` outcome, which the source does not have (it would recurse without bound).
- Resolvers.DfsPathResolver.HandleReferralResponse: the DOMAIN request type is not modelled. Its handling always throws, and no step sends it.
- Resolvers.ResolveState.constructor: the steps log (`steps`) is a ghost record added for the contracts. It is not in the source.
- Resolvers.DfsPathResolver.Step13 and Step14 are outcomes that carry the status instead of an exception message.
- `ResponseGetDfsReferral.GetBytes` is left out because it is not implemented. The model's record encoders exist only for the round-trip lemmas.
- DfsReferralV1's `ShareName` field is never assigned, and it has no field in the model.
- DfsReferral's `SpecialName` is modelled, and its other `ToString` members are left out. All `ToString` and `GetHashCode` methods are left out.
- `SmbHelpers.GetFileInformationClass` (reflection over type names) and the two `ConvertAttributes` casts are left out.
- SmbFileStream's `Flush`, `Dispose`, `RefreshFileInformation` and the remote open in its constructor are left out. The constructor takes the file's end of file as a parameter.
- SmbFileStreams.SmbFileStream.Write: the check that the window's MemoryStream returned the expected byte count cannot fail for a valid window, so it is not modelled.
- SmbFileStreams.SmbFileStream.Read: the bytes are copied into the caller's buffer after the loop, not chunk by chunk. Nothing else observes the buffer in between.
- SmbFileStreams.SmbFileStream.SetPosition: positions and lengths are unbounded integers. The `long` overflow of `Seek`'s sums is not modelled.
- Text.LowerString: case folding (`ToLower`, `OrdinalIgnoreCase`) covers ASCII letters only. Full Unicode case mapping is not modelled.
- ReferralCacheNodes: the trie is a value (`Node` with a map of children) and each operation returns the new trie, which `ReferralCache` stores back into its `root` field. In-place update of shared child nodes is not modelled, and there is no aliasing between nodes in the source's use.

## Findings

| source | as written | input that shows it | evidently intended | confidence | as-written member | corrected member |
|---|---|---|---|---|---|---|
| Dfs/Messages/DfsReferral.cs:19, Dfs/Messages/DfsReferralV3V4.cs:32 | `ExpandedNames` is never initialised, so the name-list loop's first `Add` throws a null reference | a v3 record with the NameListReferral bit and NumberOfExpandedNames = 1, such as any DC referral answer | the names are read back to back and collected in order into a fresh list | not executed; high | Referrals.NameListAsWrittenNeverYieldsNames | Referrals.ExpandedNamesOfEncoding |
| Dfs/SmbFileStream.cs:14,16 with Dfs/SmbHelpers.cs:102-117 | `CanRead` and `CanWrite` test only the GENERIC_READ and GENERIC_WRITE bits, but an access outside the four named values is opened with GENERIC_ALL | a stream opened with SmbFileAccess Read\|Delete: its mask is GENERIC_ALL, so CanRead and CanWrite are both false | a GENERIC_ALL handle reports that it can read and write | not executed; medium | SmbFileStreams.CanReadMissesGenericAll | SmbFileStreams.RequestedAccessGranted |
