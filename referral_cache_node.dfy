/**
 * ReferralCacheNode: a trie over path components. Each node may hold an
 * entry; child keys are the lower-cased components and are matched ignoring
 * case. The trie is a value here: an operation returns the new trie.
 */
module ReferralCacheNodes {
  import opened Wrappers
  import opened Text
  import opened ReferralCacheEntries

  datatype Node = Node(entry: Option<ReferralCacheEntry>, children: map<WString, Node>)

  /** A node just created by GetOrAdd, or one just cleared. */
  const Empty: Node := Node(None, map[])

  /** The child keys the walks use: each component lower-cased. */
  function Keys(cs: seq<WString>): (r: seq<WString>)
    ensures |r| == |cs|
    ensures forall i :: 0 <= i < |cs| ==> r[i] == LowerString(cs[i])
  {
    seq(|cs|, i requires 0 <= i < |cs| => LowerString(cs[i]))
  }

  lemma KeysCons(cs: seq<WString>)
    requires |cs| > 0
    ensures Keys(cs) == [LowerString(cs[0])] + Keys(cs[1..])
  {
  }

  // ---------------------------------------------------------------------------
  // The three walks and Clear, as the source performs them.
  // ---------------------------------------------------------------------------

  /** AddReferralEntry: descend, creating missing children, and set the entry of the last node. */
  function Insert(n: Node, cs: seq<WString>, e: ReferralCacheEntry): Node
    decreases |cs|
  {
    if |cs| == 0 then n.(entry := Some(e))
    else
      var key := LowerString(cs[0]);
      var child := if key in n.children then n.children[key] else Empty;
      n.(children := n.children[key := Insert(child, cs[1..], e)])
  }

  /** GetReferralEntry: descend while a child matches, then answer that node's entry. */
  function Get(n: Node, cs: seq<WString>): Option<ReferralCacheEntry>
    decreases |cs|
  {
    if |cs| > 0 && LowerString(cs[0]) in n.children then Get(n.children[LowerString(cs[0])], cs[1..])
    else n.entry
  }

  /** The test DeleteExpiredReferralEntry makes at each node it visits. */
  predicate ExpiredHere(n: Node, now: int) {
    n.entry.Some? && n.entry.value.IsExpired(now) && !n.entry.value.IsRoot()
  }

  /**
   * DeleteExpiredReferralEntry: walk the path from this node; the first
   * node whose entry is expired and not a root is cleared (it stays in its
   * parent's map, empty), and the walk stops there.
   */
  function DeleteExpired(n: Node, cs: seq<WString>, now: int): Node
    decreases |cs|
  {
    if ExpiredHere(n, now) then Empty
    else if |cs| > 0 && LowerString(cs[0]) in n.children then
      var key := LowerString(cs[0]);
      n.(children := n.children[key := DeleteExpired(n.children[key], cs[1..], now)])
    else n
  }

  // ---------------------------------------------------------------------------
  // An independent view: the node (and entry) at an exact key path.
  // ---------------------------------------------------------------------------

  function NodeAt(n: Node, keys: seq<WString>): Option<Node>
    decreases |keys|
  {
    if |keys| == 0 then Some(n)
    else if keys[0] in n.children then NodeAt(n.children[keys[0]], keys[1..])
    else None
  }

  /** The entry stored at exactly `keys`; None where there is no node or no entry. */
  function EntryAt(n: Node, keys: seq<WString>): Option<ReferralCacheEntry> {
    if NodeAt(n, keys).Some? then NodeAt(n, keys).value.entry else None
  }

  /** How many components GetReferralEntry consumes before it stops. */
  function Reached(n: Node, cs: seq<WString>): (d: nat)
    ensures d <= |cs|
    decreases |cs|
  {
    if |cs| > 0 && LowerString(cs[0]) in n.children then 1 + Reached(n.children[LowerString(cs[0])], cs[1..])
    else 0
  }

  /** The depth of the first node on the walked path that DeleteExpired clears, if any. */
  function ExpiredDepth(n: Node, cs: seq<WString>, now: int): (d: Option<nat>)
    ensures d.Some? ==> d.value <= |cs|
    decreases |cs|
  {
    if ExpiredHere(n, now) then Some(0)
    else if |cs| > 0 && LowerString(cs[0]) in n.children then
      var below := ExpiredDepth(n.children[LowerString(cs[0])], cs[1..], now);
      if below.Some? then Some(below.value + 1) else None
    else None
  }

  lemma EntryAtEmpty(keys: seq<WString>)
    ensures EntryAt(Empty, keys) == None
  {
  }

  // ---------------------------------------------------------------------------
  // Properties.
  // ---------------------------------------------------------------------------

  /**
   * Insert sets the entry at exactly the inserted path and leaves every other
   * node's entry as it was (a node it creates has none).
   */
  lemma {:induction false} InsertEntryAt(n: Node, cs: seq<WString>, e: ReferralCacheEntry, keys: seq<WString>)
    ensures EntryAt(Insert(n, cs, e), keys) == if keys == Keys(cs) then Some(e) else EntryAt(n, keys)
    decreases |cs|
  {
    if |cs| == 0 {
      assert Keys(cs) == [];
    } else {
      KeysCons(cs);
      var key := LowerString(cs[0]);
      var child := if key in n.children then n.children[key] else Empty;
      if |keys| > 0 && keys[0] == key {
        InsertEntryAt(child, cs[1..], e, keys[1..]);
        assert keys == [key] + keys[1..];
        assert (keys == Keys(cs)) == (keys[1..] == Keys(cs[1..]));
        if key !in n.children {
          EntryAtEmpty(keys[1..]);
        }
      } else if |keys| > 0 {
        assert keys[0] != Keys(cs)[0];
      }
    }
  }

  /** After AddReferralEntry(cs, e), GetReferralEntry(cs) answers e. */
  lemma {:induction false} GetAfterInsert(n: Node, cs: seq<WString>, e: ReferralCacheEntry)
    ensures Get(Insert(n, cs, e), cs) == Some(e)
    decreases |cs|
  {
    if |cs| > 0 {
      var key := LowerString(cs[0]);
      var child := if key in n.children then n.children[key] else Empty;
      GetAfterInsert(child, cs[1..], e);
    }
  }

  /**
   * GetReferralEntry answers the entry of the deepest node it reaches, which
   * need not be the deepest node on the path that holds an entry.
   */
  lemma {:induction false} GetIsDeepestReached(n: Node, cs: seq<WString>)
    ensures NodeAt(n, Keys(cs)[..Reached(n, cs)]).Some?
    ensures Get(n, cs) == EntryAt(n, Keys(cs)[..Reached(n, cs)])
    ensures Reached(n, cs) < |cs| ==> NodeAt(n, Keys(cs)[..Reached(n, cs) + 1]).None?
    decreases |cs|
  {
    var d := Reached(n, cs);
    if |cs| > 0 {
      KeysCons(cs);
      var key := LowerString(cs[0]);
      if key in n.children {
        GetIsDeepestReached(n.children[key], cs[1..]);
        assert Keys(cs)[..d] == [key] + Keys(cs[1..])[..d - 1];
        if d < |cs| {
          assert Keys(cs)[..d + 1] == [key] + Keys(cs[1..])[..d];
        }
      } else {
        assert Keys(cs)[..1] == [key];
      }
    }
  }

  /** A stored entry can hide behind an entry-less deeper node: the lookup is not a longest-prefix match. */
  lemma NotLongestPrefix(e: ReferralCacheEntry, component: WString)
    ensures var n := Node(Some(e), map[LowerString(component) := Empty]);
      EntryAt(n, []) == Some(e) && Get(n, [component]) == None
  {
  }

  /** Component matching ignores case. */
  lemma {:induction false} GetIgnoresCase(n: Node, a: seq<WString>, b: seq<WString>)
    requires Keys(a) == Keys(b)
    ensures Get(n, a) == Get(n, b)
    decreases |a|
  {
    if |a| > 0 {
      assert LowerString(a[0]) == Keys(a)[0] == Keys(b)[0] == LowerString(b[0]);
      KeysCons(a);
      KeysCons(b);
      if LowerString(a[0]) in n.children {
        GetIgnoresCase(n.children[LowerString(a[0])], a[1..], b[1..]);
      }
    }
  }

  /**
   * DeleteExpired removes the entries at and below the first expired non-root
   * node on the path and leaves every other entry where it was; with no such
   * node it changes nothing.
   */
  lemma {:induction false} DeleteExpiredEntryAt(n: Node, cs: seq<WString>, now: int, keys: seq<WString>)
    ensures var d := ExpiredDepth(n, cs, now);
      EntryAt(DeleteExpired(n, cs, now), keys)
      == if d.Some? && Keys(cs)[..d.value] <= keys then None else EntryAt(n, keys)
    decreases |cs|
  {
    var d := ExpiredDepth(n, cs, now);
    if ExpiredHere(n, now) {
      EntryAtEmpty(keys);
    } else if |cs| > 0 && LowerString(cs[0]) in n.children {
      KeysCons(cs);
      var key := LowerString(cs[0]);
      if |keys| > 0 && keys[0] == key {
        DeleteExpiredEntryAt(n.children[key], cs[1..], now, keys[1..]);
        if d.Some? {
          assert Keys(cs)[..d.value] == [key] + Keys(cs[1..])[..d.value - 1];
          assert keys == [key] + keys[1..];
        }
      } else if d.Some? && |keys| > 0 {
        assert Keys(cs)[..d.value][0] == key;
      }
    }
  }

  /** With no expired non-root entry on the walked path, DeleteExpired is the identity. */
  lemma {:induction false} DeleteExpiredNothingToDo(n: Node, cs: seq<WString>, now: int)
    requires ExpiredDepth(n, cs, now).None?
    ensures DeleteExpired(n, cs, now) == n
    decreases |cs|
  {
    if |cs| > 0 && LowerString(cs[0]) in n.children {
      var key := LowerString(cs[0]);
      DeleteExpiredNothingToDo(n.children[key], cs[1..], now);
      assert n.children[key := n.children[key]] == n.children;
    }
  }

  /** After Clear, nothing is found. */
  lemma GetOfEmpty(cs: seq<WString>)
    ensures Get(Empty, cs) == None
  {
  }

  // ---------------------------------------------------------------------------
  // Which entry objects a trie holds.
  // ---------------------------------------------------------------------------

  /** Every entry stored anywhere in `n` belongs to `s`. */
  ghost predicate EntriesIn(n: Node, s: set<ReferralCacheEntry>) {
    forall keys :: EntryAt(n, keys).Some? ==> EntryAt(n, keys).value in s
  }

  lemma InsertKeepsEntriesIn(n: Node, cs: seq<WString>, e: ReferralCacheEntry, s: set<ReferralCacheEntry>)
    requires EntriesIn(n, s) && e in s
    ensures EntriesIn(Insert(n, cs, e), s)
  {
    forall keys | EntryAt(Insert(n, cs, e), keys).Some? {
      InsertEntryAt(n, cs, e, keys);
    }
  }

  lemma DeleteExpiredKeepsEntriesIn(n: Node, cs: seq<WString>, now: int, s: set<ReferralCacheEntry>)
    requires EntriesIn(n, s)
    ensures EntriesIn(DeleteExpired(n, cs, now), s)
  {
    forall keys | EntryAt(DeleteExpired(n, cs, now), keys).Some? {
      DeleteExpiredEntryAt(n, cs, now, keys);
    }
  }

  lemma GetInEntries(n: Node, cs: seq<WString>, s: set<ReferralCacheEntry>)
    requires EntriesIn(n, s) && Get(n, cs).Some?
    ensures Get(n, cs).value in s
  {
    GetIsDeepestReached(n, cs);
  }
}
