/**
 * SmbPath: a path as host, share and path-within-share, each possibly null;
 * normalising ('/' to '\', leading "\\" or "\" dropped), parsing, printing
 * back as UNC, parent and child paths, and the comparisons. Pure: every
 * member builds a new value.
 */
module SmbPaths {
  import opened Wrappers
  import opened Text
  import opened DfsPaths

  /** SmbPath's three get-only properties; None stands for null. */
  datatype SmbPath = SmbPath(hostName: Option<WString>, shareName: Option<WString>, path: Option<WString>)

  /** Why building an SmbPath threw. */
  datatype PathError =
    | NullPath            // Parse of null: the Split call on the null result
    | NoComponents        // Parse of a path with no non-empty segment: split[0] is out of range
    | NotFullySpecified   // the child constructor on a parent without a share

  const BackslashOnly: set<CodeUnit> := {Backslash}

  predicate IsNullOrEmpty(s: Option<WString>) {
    s.None? || s.value == []
  }

  /** What StringBuilder.Append and string concatenation make of a null string. */
  function NullAsEmpty(s: Option<WString>): WString {
    if s.None? then [] else s.value
  }

  /** path.Replace('/', '\'). */
  function ReplaceSlashes(s: WString): (r: WString)
    ensures |r| == |s|
    ensures forall i :: 0 <= i < |s| ==> r[i] == if s[i] == Slash then Backslash else s[i]
  {
    seq(|s|, i requires 0 <= i < |s| => if s[i] == Slash then Backslash else s[i])
  }

  /**
   * SmbPath.RewritePath: null and "" are returned unchanged; otherwise every
   * '/' becomes '\' and then one leading "\\" pair, or else one leading "\",
   * is dropped.
   */
  function RewritePath(path: Option<WString>): (r: Option<WString>)
    ensures IsNullOrEmpty(path) ==> r == path
    ensures !IsNullOrEmpty(path) ==> (r.Some? &&
      var replaced := ReplaceSlashes(path.value);
      && |r.value| <= |replaced| <= |r.value| + 2
      && replaced[|replaced| - |r.value|..] == r.value
      && (|replaced| == |r.value| <==> replaced[0] != Backslash)
      && (|replaced| == |r.value| + 2 <==> |replaced| > 1 && replaced[0] == Backslash && replaced[1] == Backslash))
    ensures r.Some? && !IsNullOrEmpty(path) ==> forall i :: 0 <= i < |r.value| ==> r.value[i] != Slash
  {
    if IsNullOrEmpty(path) then path
    else
      var replaced := ReplaceSlashes(path.value);
      if replaced[0] == Backslash then
        if |replaced| > 1 && replaced[1] == Backslash then Some(replaced[2..]) else Some(replaced[1..])
      else Some(replaced)
  }

  /** The three-argument constructor: the path goes through RewritePath, host and share do not. */
  function Make(hostName: Option<WString>, shareName: Option<WString>, path: Option<WString>): SmbPath {
    SmbPath(hostName, shareName, RewritePath(path))
  }

  /** string.Join(separator, segments). */
  function Join(segments: seq<WString>, separator: CodeUnit): WString {
    if segments == [] then []
    else if |segments| == 1 then segments[0]
    else segments[0] + [separator] + Join(segments[1..], separator)
  }

  /**
   * SmbPath.Parse: the rewritten path split on '\' without empty entries; one
   * segment is a host, two a host and share, more a host, share and the rest
   * joined with '\'.
   */
  function Parse(path: Option<WString>): (r: Result<SmbPath, PathError>)
    ensures r.Success? ==> r.value.hostName.Some? && r.value.hostName.value != []
    ensures r.Success? ==> r.value.shareName.None? || r.value.shareName.value != []
    ensures r.Success? && r.value.shareName.None? ==> r.value.path.None?
  {
    match RewritePath(path)
    case None => Failure(NullPath)
    case Some(rewritten) =>
      var split := Split(rewritten, BackslashOnly);
      SplitWellFormed(rewritten, BackslashOnly);
      if |split| == 1 then Success(Make(Some(split[0]), None, None))
      else if |split| == 2 then Success(Make(Some(split[0]), Some(split[1]), None))
      else if |split| == 0 then Failure(NoComponents)
      else Success(Make(Some(split[0]), Some(split[1]), Some(Join(split[2..], Backslash))))
  }

  /** Dropping RewritePath's leading '\' units does not change how the path splits on '\'. */
  lemma SplitRewritten(path: WString)
    requires path != []
    ensures Split(RewritePath(Some(path)).value, BackslashOnly) == Split(ReplaceSlashes(path), BackslashOnly)
  {
    var replaced := ReplaceSlashes(path);
    if replaced[0] == Backslash {
      assert replaced == [Backslash] + replaced[1..];
      SplitLeadingSeparator(Backslash, replaced[1..], BackslashOnly);
      if |replaced| > 1 && replaced[1] == Backslash {
        assert replaced[1..] == [Backslash] + replaced[2..];
        SplitLeadingSeparator(Backslash, replaced[2..], BackslashOnly);
      }
    }
  }

  /**
   * Parse by segment count, counting the non-empty segments of the path with
   * '/' read as '\': none fails (null with its own error), one is a host, two
   * a host and share, and more a host, share and the rest joined by '\',
   * which the constructor's RewritePath leaves as it is.
   */
  lemma ParseSegments(path: Option<WString>)
    ensures path.None? ==> Parse(path) == Failure(NullPath)
    ensures path.Some? ==>
      var split := Split(ReplaceSlashes(path.value), BackslashOnly);
      && (split == [] ==> Parse(path) == Failure(NoComponents))
      && (|split| == 1 ==> Parse(path) == Success(SmbPath(Some(split[0]), None, None)))
      && (|split| == 2 ==> Parse(path) == Success(SmbPath(Some(split[0]), Some(split[1]), None)))
      && (|split| > 2 ==> Parse(path) == Success(SmbPath(Some(split[0]), Some(split[1]), Some(Join(split[2..], Backslash)))))
  {
    if path.Some? {
      var replaced := ReplaceSlashes(path.value);
      var split := Split(replaced, BackslashOnly);
      if path.value == [] {
        SplitEmpty(BackslashOnly);
      } else {
        SplitRewritten(path.value);
      }
      if |split| > 2 {
        var rest := split[2..];
        SplitWellFormed(replaced, BackslashOnly);
        SplitUnitsFrom(replaced, BackslashOnly);
        forall i | 0 <= i < |rest| ensures Segment(rest[i]) {
          forall j | 0 <= j < |rest[i]| ensures rest[i][j] !in PathSeparators {
            assert split[i + 2][j] in replaced && split[i + 2][j] !in BackslashOnly;
          }
        }
        JoinShape(rest);
        RewriteNormalised(Join(rest, Backslash));
      }
    }
  }

  /**
   * SmbPath.ToUncPath: "\\" and the host; then, only when the share is not
   * empty, "\" unless the share already starts with one, the share, and
   * "\" + path when the path is not empty.
   */
  function ToUncPath(p: SmbPath): WString {
    var head := [Backslash, Backslash] + NullAsEmpty(p.hostName);
    if IsNullOrEmpty(p.shareName) then head
    else
      var share := p.shareName.value;
      head + (if share[0] != Backslash then [Backslash] else []) + share
           + (if IsNullOrEmpty(p.path) then [] else [Backslash] + p.path.value)
  }

  lemma PrefixOfConcat(a: WString, b: WString)
    ensures (a + b)[..|a|] == a
  {
  }

  lemma Regroup4(a: WString, b: WString, c: WString, d: WString)
    ensures a + b + c + d == a + (b + c + d)
  {
  }

  lemma Regroup5(a: WString, b: WString, c: WString, d: WString, e: WString)
    ensures a + b + c + d + e == a + (b + (c + d + e))
  {
  }

  /** A UNC path starts with "\\" and the host, and is nothing more when there is no share. */
  lemma ToUncPathStartsWithHost(p: SmbPath)
    ensures var r := ToUncPath(p);
      && |r| >= 2 + |NullAsEmpty(p.hostName)|
      && r[..2 + |NullAsEmpty(p.hostName)|] == [Backslash, Backslash] + NullAsEmpty(p.hostName)
      && (IsNullOrEmpty(p.shareName) ==> r == [Backslash, Backslash] + NullAsEmpty(p.hostName))
  {
    var head := [Backslash, Backslash] + NullAsEmpty(p.hostName);
    if !IsNullOrEmpty(p.shareName) {
      var share := p.shareName.value;
      var sep := if share[0] != Backslash then [Backslash] else [];
      var tail := if IsNullOrEmpty(p.path) then [] else [Backslash] + p.path.value;
      assert ToUncPath(p) == head + sep + share + tail;
      Regroup4(head, sep, share, tail);
      PrefixOfConcat(head, sep + share + tail);
    }
  }

  /**
   * A share may be given as "share" or "\share": ToUncPath prints both the
   * same way, adding the '\' before the share only when it is missing.
   */
  lemma ToUncPathShareWithBackslash(host: Option<WString>, share: WString, path: Option<WString>)
    requires share != [] && share[0] != Backslash
    ensures ToUncPath(SmbPath(host, Some([Backslash] + share), path)) == ToUncPath(SmbPath(host, Some(share), path))
  {

  }

  /** String.LastIndexOf(char): the last position holding c, or -1. */
  function LastIndexOf(s: WString, c: CodeUnit): (r: int)
    ensures -1 <= r < |s|
    ensures 0 <= r ==> s[r] == c
    ensures forall i :: r < i < |s| ==> s[i] != c
  {
    if s == [] then -1
    else if s[|s| - 1] == c then |s| - 1
    else LastIndexOf(s[..|s| - 1], c)
  }

  /**
   * SmbPath.Parent: the path itself when it has no path; otherwise the path
   * up to its last '\' (through the constructor), or no path at all when
   * that '\' is missing or first.
   */
  function Parent(p: SmbPath): (r: SmbPath)
    ensures r.hostName == p.hostName && r.shareName == p.shareName
    ensures IsNullOrEmpty(p.path) ==> r == p
    ensures !IsNullOrEmpty(p.path) ==> r.path.None? || |r.path.value| < |p.path.value|
  {
    if IsNullOrEmpty(p.path) then p
    else
      var index := LastIndexOf(p.path.value, Backslash);
      if index > 0 then Make(p.hostName, p.shareName, Some(p.path.value[..index]))
      else Make(p.hostName, p.shareName, None)
  }

  /**
   * The child constructor SmbPath(parent, path): fails unless the parent has
   * a share; the child's path is the parent's path, "\" and the rewritten
   * child path, or only the rewritten child path when the parent has none.
   */
  function Child(parent: SmbPath, path: Option<WString>): (r: Result<SmbPath, PathError>)
    ensures r.Failure? <==> IsNullOrEmpty(parent.shareName)
    ensures r.Success? ==> r.value.hostName == parent.hostName && r.value.shareName == parent.shareName
    ensures r.Success? && !IsNullOrEmpty(parent.path) ==>
      r.value.path.Some? && |r.value.path.value| > |parent.path.value|
      && r.value.path.value[..|parent.path.value| + 1] == parent.path.value + [Backslash]
  {
    if IsNullOrEmpty(parent.shareName) then Failure(NotFullySpecified)
    else if !IsNullOrEmpty(parent.path) then
      Success(SmbPath(parent.hostName, parent.shareName, Some(parent.path.value + [Backslash] + NullAsEmpty(RewritePath(path)))))
    else Success(SmbPath(parent.hostName, parent.shareName, RewritePath(path)))
  }

  /**
   * The child's segments are the parent's segments followed by those of the
   * child path ('/' read as '\'): the child constructor appends and never
   * rewrites what the parent holds.
   */
  lemma ChildSegments(parent: SmbPath, path: Option<WString>)
    requires !IsNullOrEmpty(parent.shareName)
    ensures Child(parent, path).Success?
    ensures Split(NullAsEmpty(Child(parent, path).value.path), BackslashOnly)
         == Split(NullAsEmpty(parent.path), BackslashOnly) + Split(ReplaceSlashes(NullAsEmpty(path)), BackslashOnly)
  {
    var tail := ReplaceSlashes(NullAsEmpty(path));
    if IsNullOrEmpty(path) {
      assert NullAsEmpty(RewritePath(path)) == [] == tail;
      SplitEmpty(BackslashOnly);
    } else {
      SplitRewritten(path.value);
    }
    if IsNullOrEmpty(parent.path) {
      SplitEmpty(BackslashOnly);
      assert NullAsEmpty(parent.path) == [];
      assert Split(NullAsEmpty(parent.path), BackslashOnly) + Split(tail, BackslashOnly) == Split(tail, BackslashOnly);
    } else {
      SplitAppend(parent.path.value, Backslash, NullAsEmpty(RewritePath(path)), BackslashOnly);
    }
  }

  /** SmbPath.Equals: ordinal comparison of the three parts, null equal to null. */
  predicate Equals(a: SmbPath, b: SmbPath) {
    a.hostName == b.hostName && a.shareName == b.shareName && a.path == b.path
  }

  /** SmbPath.IsOnSameHost: the other path is not null and has the same host. */
  predicate IsOnSameHost(a: SmbPath, other: Option<SmbPath>) {
    other.Some? && a.hostName == other.value.hostName
  }

  /** SmbPath.IsOnSameShare. */
  predicate IsOnSameShare(a: SmbPath, other: Option<SmbPath>) {
    IsOnSameHost(a, other) && a.shareName == other.value.shareName
  }

  /** Equality is value equality, and it implies being on the same share, which implies the same host. */
  lemma ComparisonsNest(a: SmbPath, other: Option<SmbPath>)
    ensures other.Some? ==> (Equals(a, other.value) <==> a == other.value)
    ensures other.Some? && Equals(a, other.value) ==> IsOnSameShare(a, other)
    ensures IsOnSameShare(a, other) ==> IsOnSameHost(a, other)
    ensures other.None? ==> !IsOnSameHost(a, other)
  {
  }

  /** A name that is a single SMB path segment: non-empty, neither '\' nor '/'. */
  predicate Segment(s: WString) {
    s != [] && SeparatorFree(s, PathSeparators)
  }

  /** A path within a share as Parse and the constructors produce it: segments joined by '\'. */
  function PathOf(segments: seq<WString>): Option<WString> {
    if segments == [] then None else Some(Join(segments, Backslash))
  }

  lemma SegmentHasNoBackslash(s: WString)
    requires Segment(s)
    ensures s != [] && SeparatorFree(s, BackslashOnly)
  {
  }

  lemma {:induction false} JoinShape(segments: seq<WString>)
    requires segments != []
    requires forall i :: 0 <= i < |segments| ==> Segment(segments[i])
    ensures var j := Join(segments, Backslash);
      j != [] && j[0] != Backslash && forall i :: 0 <= i < |j| ==> j[i] != Slash
    decreases |segments|
  {
    if |segments| > 1 {
      JoinShape(segments[1..]);
    }
  }

  lemma {:induction false} SplitJoin(segments: seq<WString>)
    requires forall i :: 0 <= i < |segments| ==> Segment(segments[i])
    ensures Split(Join(segments, Backslash), BackslashOnly) == segments
    decreases |segments|
  {
    if segments == [] {
      SplitEmpty(BackslashOnly);
    } else if |segments| == 1 {
      SplitOfComponent(segments[0], BackslashOnly);
    } else {
      var rest := [Backslash] + Join(segments[1..], Backslash);
      assert Join(segments, Backslash) == segments[0] + rest;
      SplitComponentThenRest(segments[0], rest, BackslashOnly);
      SplitLeadingSeparator(Backslash, Join(segments[1..], Backslash), BackslashOnly);
      SplitJoin(segments[1..]);
      assert [segments[0]] + segments[1..] == segments;
    }
  }

  /** RewritePath leaves a normalised path alone. */
  lemma RewriteNormalised(s: WString)
    requires s != [] && s[0] != Backslash && forall i :: 0 <= i < |s| ==> s[i] != Slash
    ensures RewritePath(Some(s)) == Some(s)
  {
    assert ReplaceSlashes(s) == s;
  }

  /** What ToUncPath prints after its leading "\\": host, then "\" + share, then "\" + path. */
  function UncTail(host: WString, share: Option<WString>, segments: seq<WString>): WString {
    host + if share.None? then [] else
      [Backslash] + share.value + (if segments == [] then [] else [Backslash] + Join(segments, Backslash))
  }

  /** ToUncPath prints "\\" and then the host, share and path segments separated by '\'. */
  lemma ToUncPathOfSegments(host: WString, share: Option<WString>, segments: seq<WString>)
    requires share.Some? ==> Segment(share.value)
    requires share.None? ==> segments == []
    requires forall i :: 0 <= i < |segments| ==> Segment(segments[i])
    ensures ToUncPath(SmbPath(Some(host), share, PathOf(segments)))
         == [Backslash, Backslash] + UncTail(host, share, segments)
  {
    if segments != [] {
      JoinShape(segments);
    }
    if share.None? {
      assert UncTail(host, share, segments) == host;
    } else {
      var s := share.value;
      assert s[0] != Backslash;
      var inner := if segments == [] then [] else [Backslash] + Join(segments, Backslash);
      assert ToUncPath(SmbPath(Some(host), share, PathOf(segments))) == [Backslash, Backslash] + host + [Backslash] + s + inner;
      Regroup5([Backslash, Backslash], host, [Backslash], s, inner);
      assert UncTail(host, share, segments) == host + ([Backslash] + s + inner);
    }
  }

  /** RewritePath drops the leading "\\" of a printed UNC path and changes nothing else. */
  lemma UncTailShape(host: WString, share: Option<WString>, segments: seq<WString>)
    requires Segment(host)
    requires share.Some? ==> Segment(share.value)
    requires share.None? ==> segments == []
    requires forall i :: 0 <= i < |segments| ==> Segment(segments[i])
    ensures RewritePath(Some([Backslash, Backslash] + UncTail(host, share, segments)))
         == Some(UncTail(host, share, segments))
  {
    var t := UncTail(host, share, segments);
    var unc := [Backslash, Backslash] + t;
    if segments != [] {
      JoinShape(segments);
    }
    assert forall i :: 0 <= i < |t| ==> t[i] != Slash;
    assert ReplaceSlashes(unc) == unc;
    assert t[0] == host[0];
  }

  lemma {:induction false} SplitUncTail(host: WString, share: Option<WString>, segments: seq<WString>)
    requires Segment(host)
    requires share.Some? ==> Segment(share.value)
    requires share.None? ==> segments == []
    requires forall i :: 0 <= i < |segments| ==> Segment(segments[i])
    ensures Split(UncTail(host, share, segments), BackslashOnly)
         == [host] + (if share.None? then [] else [share.value] + segments)
  {
    var tail := UncTail(host, share, segments)[|host|..];
    assert UncTail(host, share, segments) == host + tail;
    SegmentHasNoBackslash(host);
    SplitComponentThenRest(host, tail, BackslashOnly);
    if share.None? {
      SplitEmpty(BackslashOnly);
    } else {
      var inner := if segments == [] then [] else [Backslash] + Join(segments, Backslash);
      assert tail == [Backslash] + (share.value + inner);
      SplitLeadingSeparator(Backslash, share.value + inner, BackslashOnly);
      SegmentHasNoBackslash(share.value);
      SplitComponentThenRest(share.value, inner, BackslashOnly);
      if segments == [] {
        SplitEmpty(BackslashOnly);
      } else {
        SplitLeadingSeparator(Backslash, Join(segments, Backslash), BackslashOnly);
        SplitJoin(segments);
      }
    }
  }

  /**
   * Parsing what ToUncPath prints gives the same SmbPath back, for a host and
   * share that are single segments and a path that is absent or made of
   * segments joined by '\' (and no path without a share).
   */
  lemma ParseOfToUncPath(host: WString, share: Option<WString>, segments: seq<WString>)
    requires Segment(host)
    requires share.Some? ==> Segment(share.value)
    requires share.None? ==> segments == []
    requires forall i :: 0 <= i < |segments| ==> Segment(segments[i])
    ensures Parse(Some(ToUncPath(SmbPath(Some(host), share, PathOf(segments)))))
         == Success(SmbPath(Some(host), share, PathOf(segments)))
  {
    ToUncPathOfSegments(host, share, segments);
    UncTailShape(host, share, segments);
    SplitUncTail(host, share, segments);
    var split := [host] + (if share.None? then [] else [share.value] + segments);
    if |split| > 2 {
      assert split[2..] == segments;
      JoinShape(segments);
      RewriteNormalised(Join(segments, Backslash));
    }
  }

  /**
   * Parent undoes the child constructor: adding a one-segment child to a
   * path that has a share and an absent or normalised path, then taking the
   * parent, gives the original path back.
   */
  lemma ParentOfChild(p: SmbPath, name: WString)
    requires !IsNullOrEmpty(p.shareName)
    requires Segment(name)
    requires p.path.Some? ==> p.path.value != [] && p.path.value[0] != Backslash
                              && forall i :: 0 <= i < |p.path.value| ==> p.path.value[i] != Slash
    ensures Child(p, Some(name)).Success? && Parent(Child(p, Some(name)).value) == p
  {
    assert name[0] != Backslash;
    RewriteNormalised(name);
    var c := Child(p, Some(name)).value;
    if p.path.Some? {
      var s := p.path.value;
      assert c.path == Some(s + [Backslash] + name);
      assert LastIndexOf(s + [Backslash] + name, Backslash) == |s| by {
        LastIndexOfAfter(s + [Backslash], name, Backslash);
      }
      assert (s + [Backslash] + name)[..|s|] == s;
      RewriteNormalised(s);
    } else {
      assert c.path == Some(name);
      assert LastIndexOf(name, Backslash) == -1;
    }
  }

  /** The last occurrence in a + b, when b does not hold c, is the last one in a. */
  lemma LastIndexOfAfter(a: WString, b: WString, c: CodeUnit)
    requires a != [] && a[|a| - 1] == c
    requires forall i :: 0 <= i < |b| ==> b[i] != c
    ensures LastIndexOf(a + b, c) == |a| - 1
    decreases |b|
  {
    if b != [] {
      assert (a + b)[..|a + b| - 1] == a + b[..|b| - 1];
      LastIndexOfAfter(a, b[..|b| - 1], c);
    } else {
      assert a + b == a;
    }
  }
}
