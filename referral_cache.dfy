/**
 * ReferralCache: the trie root, keyed by the components of each entry's
 * DfsPathPrefix.
 */
module ReferralCaches {
  import opened Wrappers
  import opened Text
  import opened DfsPaths
  import opened ReferralCacheEntries
  import opened ReferralCacheNodes

  class ReferralCache {
    var root: Node

    constructor ()
      ensures root == Empty
    {
      root := Empty;
    }

    /** ReferralCache.Lookup: the trie walk over the path's components; it changes nothing. */
    function Lookup(dfsPath: DfsPath): Option<ReferralCacheEntry>
      reads this
    {
      Get(root, dfsPath.pathComponents)
    }

    /**
     * ReferralCache.Add: the entry goes under the components of its
     * DfsPathPrefix, so looking that prefix up answers it. A null prefix makes
     * `new DfsPath(null)` throw, and the cache is left as it was.
     */
    method Add(entry: ReferralCacheEntry) returns (ok: bool)
      modifies this
      ensures ok == entry.info.dfsPathPrefix.Some?
      ensures ok ==> root == Insert(old(root), SplitPath(entry.info.dfsPathPrefix.value), entry)
      ensures ok ==> Lookup(FromUncPath(entry.info.dfsPathPrefix.value)) == Some(entry)
      ensures !ok ==> root == old(root)
    {
      if entry.info.dfsPathPrefix.None? {
        return false;
      }
      var path := FromUncPath(entry.info.dfsPathPrefix.value);
      root := Insert(root, path.pathComponents, entry);
      GetAfterInsert(old(root), path.pathComponents, entry);
      return true;
    }

    /** ReferralCache.Clear(dfsPath): drops only an expired non-root entry met on the path, with its subtree. */
    method ClearPath(dfsPath: DfsPath, now: int)
      modifies this
      ensures root == DeleteExpired(old(root), dfsPath.pathComponents, now)
    {
      root := DeleteExpired(root, dfsPath.pathComponents, now);
    }

    /** ReferralCache.Clear(): afterwards every lookup answers null. */
    method Clear()
      modifies this
      ensures root == Empty
      ensures forall p :: Lookup(p) == None
    {
      root := Empty;
      forall p: DfsPath ensures Lookup(p) == None {
        GetOfEmpty(p.pathComponents);
      }
    }
  }
}
