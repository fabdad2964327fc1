/**
 * DomainCache: domain name to DomainCacheEntry, with ordinal case-insensitive
 * keys. Entries are only ever added or replaced; nothing removes them.
 */
module DomainCaches {
  import opened Wrappers
  import opened Text
  import opened DomainCacheEntries

  /** Why Add threw: the dictionary refuses a null key. */
  datatype DomainCacheError = NullDomainName

  /** The dictionary's content, one slot per lower-cased name. */
  type Slots = map<WString, DomainCacheEntry>

  /** TryGetValue under StringComparer.OrdinalIgnoreCase. */
  function Find(slots: Slots, domainName: WString): Option<DomainCacheEntry> {
    var key := LowerString(domainName);
    if key in slots then Some(slots[key]) else None
  }

  /** The indexer assignment `_cache[name] = entry`. */
  function Upsert(slots: Slots, domainName: WString, entry: DomainCacheEntry): Slots {
    slots[LowerString(domainName) := entry]
  }

  /** After an upsert, the name (in any case) finds the new entry and every other name what it found before. */
  lemma FindAfterUpsert(slots: Slots, domainName: WString, entry: DomainCacheEntry, other: WString)
    ensures Find(Upsert(slots, domainName, entry), other)
         == if EqualsIgnoreCase(other, domainName) then Some(entry) else Find(slots, other)
  {
  }

  /** Names that differ only in case address the same slot. */
  lemma FindIgnoresCase(slots: Slots, a: WString, b: WString)
    requires EqualsIgnoreCase(a, b)
    ensures Find(slots, a) == Find(slots, b)
  {
  }

  /** Upserting the same name twice keeps only the later entry. */
  lemma UpsertReplaces(slots: Slots, domainName: WString, first: DomainCacheEntry, second: DomainCacheEntry)
    ensures Upsert(Upsert(slots, domainName, first), domainName, second) == Upsert(slots, domainName, second)
  {
  }

  class DomainCache {
    var slots: Slots

    /** A new cache finds nothing. */
    constructor ()
      ensures forall name :: Lookup(name) == None
    {
      slots := map[];
    }

    /** DomainCache.Lookup: null for a name never added. */
    function Lookup(domainName: WString): Option<DomainCacheEntry>
      reads this
    {
      Find(slots, domainName)
    }

    /** DomainCache.Add: replaces any entry under the same name (in any case) and touches no other name. */
    method Add(entry: DomainCacheEntry) returns (r: Result<(), DomainCacheError>)
      modifies this
      ensures r.Success? <==> entry.domainName.Some?
      ensures r.Success? ==> slots == Upsert(old(slots), entry.domainName.value, entry)
      ensures r.Success? ==> Lookup(entry.domainName.value) == Some(entry)
      ensures r.Success? ==> forall name :: !EqualsIgnoreCase(name, entry.domainName.value) ==> Lookup(name) == old(Lookup(name))
      ensures r.Failure? ==> slots == old(slots)
    {
      if entry.domainName.None? {
        return Failure(NullDomainName);
      }
      slots := Upsert(slots, entry.domainName.value, entry);
      return Success(());
    }
  }
}
