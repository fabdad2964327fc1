/**
 * DfsPath: a UNC path as the list of its non-empty components, split on both
 * '\' and '/'; splicing a referral target over a matched prefix; and the
 * classification the resolver branches on (one component, IPC$,
 * SYSVOL/NETLOGON). Every operation returns a new value.
 */
module DfsPaths {
  import opened Text

  /** The separators SplitPath passes to String.Split. */
  const PathSeparators: set<CodeUnit> := {Backslash, Slash}

  predicate SeparatorFree(s: WString, seps: set<CodeUnit>) {
    forall i :: 0 <= i < |s| ==> s[i] !in seps
  }

  /** What String.Split returns before empty entries are removed: the pieces between separators. */
  function Pieces(s: WString, seps: set<CodeUnit>): (r: seq<WString>)
    ensures |r| >= 1
  {
    if s == [] then [[]]
    else
      var rest := Pieces(s[1..], seps);
      if s[0] in seps then [[]] + rest
      else [[s[0]] + rest[0]] + rest[1..]
  }

  /** StringSplitOptions.RemoveEmptyEntries. */
  function NonEmpty(pieces: seq<WString>): seq<WString> {
    if pieces == [] then []
    else (if pieces[0] == [] then [] else [pieces[0]]) + NonEmpty(pieces[1..])
  }

  /** String.Split(separators, StringSplitOptions.RemoveEmptyEntries). */
  function Split(s: WString, seps: set<CodeUnit>): seq<WString> {
    NonEmpty(Pieces(s, seps))
  }

  /** DfsPath.SplitPath: the non-empty components of a path, on '\' and '/'. */
  function SplitPath(s: WString): seq<WString> {
    Split(s, PathSeparators)
  }

  lemma {:induction false} PiecesSeparatorFree(s: WString, seps: set<CodeUnit>)
    ensures forall i :: 0 <= i < |Pieces(s, seps)| ==> SeparatorFree(Pieces(s, seps)[i], seps)
    decreases |s|
  {
    if s != [] {
      PiecesSeparatorFree(s[1..], seps);
    }
  }

  lemma {:induction false} NonEmptyKeeps(pieces: seq<WString>)
    ensures forall i :: 0 <= i < |NonEmpty(pieces)| ==> NonEmpty(pieces)[i] != [] && NonEmpty(pieces)[i] in pieces
    decreases |pieces|
  {
    if pieces != [] {
      NonEmptyKeeps(pieces[1..]);
    }
  }

  /** Every component Split returns is non-empty and free of separators. */
  lemma SplitWellFormed(s: WString, seps: set<CodeUnit>)
    ensures forall i :: 0 <= i < |Split(s, seps)| ==> Split(s, seps)[i] != [] && SeparatorFree(Split(s, seps)[i], seps)
  {
    PiecesSeparatorFree(s, seps);
    NonEmptyKeeps(Pieces(s, seps));
  }

  /** SplitPath yields well-formed components. */
  lemma SplitPathWellFormed(s: WString)
    ensures WellFormed(SplitPath(s))
  {
    SplitWellFormed(s, PathSeparators);
  }

  /** The components a DfsPath may hold when built from a string: non-empty and separator-free. */
  predicate WellFormed(cs: seq<WString>) {
    forall i :: 0 <= i < |cs| ==> cs[i] != [] && SeparatorFree(cs[i], PathSeparators)
  }

  lemma {:induction false} PiecesAppend(a: WString, c: CodeUnit, b: WString, seps: set<CodeUnit>)
    requires c in seps
    ensures Pieces(a + [c] + b, seps) == Pieces(a, seps) + Pieces(b, seps)
    decreases |a|
  {
    if a == [] {
      assert a + [c] + b == [c] + b;
      assert ([c] + b)[1..] == b;
    } else {
      assert (a + [c] + b)[1..] == a[1..] + [c] + b;
      PiecesAppend(a[1..], c, b, seps);
    }
  }

  lemma {:induction false} NonEmptyAppend(x: seq<WString>, y: seq<WString>)
    ensures NonEmpty(x + y) == NonEmpty(x) + NonEmpty(y)
    decreases |x|
  {
    if x == [] {
      assert x + y == y;
    } else {
      assert (x + y)[1..] == x[1..] + y;
      NonEmptyAppend(x[1..], y);
    }
  }

  lemma {:induction false} PiecesOfSeparatorFree(x: WString, seps: set<CodeUnit>)
    requires SeparatorFree(x, seps)
    ensures Pieces(x, seps) == [x]
    decreases |x|
  {
    if x != [] {
      PiecesOfSeparatorFree(x[1..], seps);
      assert [x[0]] + x[1..] == x;
    }
  }

  /** Every unit of every piece comes from the split string. */
  lemma {:induction false} PiecesUnitsFrom(s: WString, seps: set<CodeUnit>)
    ensures forall i, j :: 0 <= i < |Pieces(s, seps)| && 0 <= j < |Pieces(s, seps)[i]| ==> Pieces(s, seps)[i][j] in s
    decreases |s|
  {
    if s != [] {
      PiecesUnitsFrom(s[1..], seps);
      var rest := Pieces(s[1..], seps);
      if s[0] !in seps {
        assert forall j :: 0 < j < |[s[0]] + rest[0]| ==> ([s[0]] + rest[0])[j] == rest[0][j - 1];
      }
    }
  }

  /** Every unit of every component Split returns comes from the split string. */
  lemma SplitUnitsFrom(s: WString, seps: set<CodeUnit>)
    ensures forall i, j :: 0 <= i < |Split(s, seps)| && 0 <= j < |Split(s, seps)[i]| ==> Split(s, seps)[i][j] in s
  {
    PiecesUnitsFrom(s, seps);
    NonEmptyKeeps(Pieces(s, seps));
  }

  /** Splitting distributes over a separator: the pieces on each side are split independently. */
  lemma SplitAppend(a: WString, c: CodeUnit, b: WString, seps: set<CodeUnit>)
    requires c in seps
    ensures Split(a + [c] + b, seps) == Split(a, seps) + Split(b, seps)
  {
    PiecesAppend(a, c, b, seps);
    NonEmptyAppend(Pieces(a, seps), Pieces(b, seps));
  }

  /** A single non-empty, separator-free string splits into itself. */
  lemma SplitOfComponent(x: WString, seps: set<CodeUnit>)
    requires x != [] && SeparatorFree(x, seps)
    ensures Split(x, seps) == [x]
  {
    PiecesOfSeparatorFree(x, seps);
    assert NonEmpty([x]) == [x] + NonEmpty([]);
  }

  /** DfsPath.ToPath: "\" before every component. */
  function ToPath(cs: seq<WString>): (r: WString)
    ensures cs != [] ==> |r| > 0 && r[0] == Backslash
  {
    if cs == [] then [] else [Backslash] + cs[0] + ToPath(cs[1..])
  }

  lemma {:induction false} ToPathAppend(a: seq<WString>, b: seq<WString>)
    ensures ToPath(a + b) == ToPath(a) + ToPath(b)
    decreases |a|
  {
    if a == [] {
      assert a + b == b;
    } else {
      assert (a + b)[1..] == a[1..] + b;
      ToPathAppend(a[1..], b);
    }
  }

  lemma SplitEmpty(seps: set<CodeUnit>)
    ensures Split([], seps) == []
  {
    assert NonEmpty([[]]) == [] + NonEmpty([]);
  }

  /** A leading separator contributes nothing. */
  lemma SplitLeadingSeparator(c: CodeUnit, x: WString, seps: set<CodeUnit>)
    requires c in seps
    ensures Split([c] + x, seps) == Split(x, seps)
  {
    assert [c] + x == [] + [c] + x;
    SplitAppend([], c, x, seps);
    SplitEmpty(seps);
  }

  /** A component followed by nothing or by a separated tail splits off as the first component. */
  lemma SplitComponentThenRest(c: WString, rest: WString, seps: set<CodeUnit>)
    requires c != [] && SeparatorFree(c, seps)
    requires rest == [] || rest[0] in seps
    ensures Split(c + rest, seps) == [c] + Split(rest, seps)
  {
    SplitOfComponent(c, seps);
    if rest == [] {
      assert c + rest == c;
      SplitEmpty(seps);
    } else {
      assert c + rest == c + [rest[0]] + rest[1..];
      SplitAppend(c, rest[0], rest[1..], seps);
      SplitLeadingSeparator(rest[0], rest[1..], seps);
      assert [rest[0]] + rest[1..] == rest;
    }
  }

  /** Printing well-formed components and splitting the result gives the components back. */
  lemma {:induction false} SplitPathOfToPath(cs: seq<WString>)
    requires WellFormed(cs)
    ensures SplitPath(ToPath(cs)) == cs
    decreases |cs|
  {
    if cs == [] {
      SplitEmpty(PathSeparators);
    } else {
      var rest := ToPath(cs[1..]);
      assert ToPath(cs) == [Backslash] + (cs[0] + rest);
      SplitLeadingSeparator(Backslash, cs[0] + rest, PathSeparators);
      SplitComponentThenRest(cs[0], rest, PathSeparators);
      SplitPathOfToPath(cs[1..]);
      assert [cs[0]] + cs[1..] == cs;
    }
  }

  /** A DFS path: its list of components. */
  datatype DfsPath = DfsPath(pathComponents: seq<WString>)

  /** new DfsPath(uncPath). */
  function FromUncPath(uncPath: WString): (p: DfsPath)
    ensures WellFormed(p.pathComponents)
  {
    SplitPathWellFormed(uncPath);
    DfsPath(SplitPath(uncPath))
  }

  /**
   * DfsPath.ReplacePrefix: the target's components followed by this path's
   * components past the prefix's length. Only the prefix's component count is
   * used; its contents are never compared with the path.
   */
  function ReplacePrefix(p: DfsPath, prefixToReplace: WString, target: WString): DfsPath {
    var k := |SplitPath(prefixToReplace)|;
    DfsPath(SplitPath(target) + (if k < |p.pathComponents| then p.pathComponents[k..] else []))
  }

  /**
   * The spliced path: the target's components, then the path's components
   * past as many as the prefix has, in order.
   */
  lemma ReplacePrefixShape(p: DfsPath, prefixToReplace: WString, target: WString)
    ensures var r, t, k, n := ReplacePrefix(p, prefixToReplace, target), SplitPath(target), |SplitPath(prefixToReplace)|, |p.pathComponents|;
      && |r.pathComponents| == |t| + (if k < n then n - k else 0)
      && r.pathComponents[..|t|] == t
      && forall i :: k <= i < n ==> r.pathComponents[|t| + i - k] == p.pathComponents[i]
  {
  }

  /** DfsPath.HasOnlyOnePathComponent. */
  predicate HasOnlyOnePathComponent(p: DfsPath) {
    |p.pathComponents| == 1
  }

  /** DfsPath.IsSysVolOrNetLogon: an ordinal, case-sensitive comparison of the second component. */
  predicate IsSysVolOrNetLogon(p: DfsPath) {
    |p.pathComponents| > 1 && (p.pathComponents[1] == Sysvol || p.pathComponents[1] == Netlogon)
  }

  /** DfsPath.IsIpc: an ordinal, case-sensitive comparison of the second component. */
  predicate IsIpc(p: DfsPath) {
    |p.pathComponents| > 1 && p.pathComponents[1] == Ipc
  }

  /** A prefix with at least as many components as the path is replaced by exactly the target. */
  lemma ReplaceWholePath(p: DfsPath, prefixToReplace: WString, target: WString)
    requires |SplitPath(prefixToReplace)| >= |p.pathComponents|
    ensures ReplacePrefix(p, prefixToReplace, target).pathComponents == SplitPath(target)
  {
  }

  /** Two prefixes with the same number of components splice identically, whatever they contain. */
  lemma ReplacePrefixIgnoresPrefixContents(p: DfsPath, prefix1: WString, prefix2: WString, target: WString)
    requires |SplitPath(prefix1)| == |SplitPath(prefix2)|
    ensures ReplacePrefix(p, prefix1, target) == ReplacePrefix(p, prefix2, target)
  {
  }

  /**
   * The effective path after a splice over a prefix the path really starts
   * with: the target's path followed by the rest of the original path
   * (\MyDomain\MyDfs\MyDir over \MyDomain\MyDfs -> \srv\share\dir gives \srv\share\dir\MyDir).
   */
  lemma ReplaceMatchedPrefix(p: DfsPath, prefixToReplace: WString, target: WString)
    requires var k := |SplitPath(prefixToReplace)|;
      k <= |p.pathComponents| && p.pathComponents[..k] == SplitPath(prefixToReplace)
    ensures ToPath(ReplacePrefix(p, prefixToReplace, target).pathComponents)
         == ToPath(SplitPath(target)) + ToPath(p.pathComponents[|SplitPath(prefixToReplace)|..])
  {
    var k := |SplitPath(prefixToReplace)|;
    var suffix := if k < |p.pathComponents| then p.pathComponents[k..] else [];
    assert suffix == p.pathComponents[k..];
    ToPathAppend(SplitPath(target), suffix);
  }

  /** Splicing keeps a path well formed, so it still prints and re-splits to the same components. */
  lemma ReplacePrefixWellFormed(p: DfsPath, prefixToReplace: WString, target: WString)
    requires WellFormed(p.pathComponents)
    ensures WellFormed(ReplacePrefix(p, prefixToReplace, target).pathComponents)
    ensures FromUncPath(ToPath(ReplacePrefix(p, prefixToReplace, target).pathComponents))
         == ReplacePrefix(p, prefixToReplace, target)
  {
    var r := ReplacePrefix(p, prefixToReplace, target);
    var k := |SplitPath(prefixToReplace)|;
    var suffix := if k < |p.pathComponents| then p.pathComponents[k..] else [];
    assert r.pathComponents == SplitPath(target) + suffix;
    assert forall i :: 0 <= i < |suffix| ==> suffix[i] == p.pathComponents[k + i];
    SplitPathWellFormed(target);
    SplitPathOfToPath(r.pathComponents);
  }

  /** The three classes are exclusive, and a single-component path is in neither special class. */
  lemma ClassificationExclusive(p: DfsPath)
    ensures HasOnlyOnePathComponent(p) ==> !IsIpc(p) && !IsSysVolOrNetLogon(p)
    ensures !(IsIpc(p) && IsSysVolOrNetLogon(p))
  {
  }

  /**
   * The share names are compared case-sensitively: "\dom\ipc$", "\dom\sysvol"
   * and "\dom\netlogon" are not recognised.
   */
  lemma ClassificationIsCaseSensitive(host: WString)
    ensures EqualsIgnoreCase(LowerString(Ipc), Ipc) && !IsIpc(DfsPath([host, LowerString(Ipc)]))
    ensures EqualsIgnoreCase(LowerString(Sysvol), Sysvol) && !IsSysVolOrNetLogon(DfsPath([host, LowerString(Sysvol)]))
    ensures EqualsIgnoreCase(LowerString(Netlogon), Netlogon) && !IsSysVolOrNetLogon(DfsPath([host, LowerString(Netlogon)]))
  {
    LowerStringIdempotent(Ipc);
    LowerStringIdempotent(Sysvol);
    LowerStringIdempotent(Netlogon);
    assert LowerString(Ipc)[0] == 0x69;
    assert LowerString(Sysvol)[0] == 0x73;
    assert LowerString(Netlogon)[0] == 0x6E;
  }
}
