/**
 * .NET strings as sequences of UTF-16 code units, the ASCII part of the
 * ordinal case-insensitive comparison, and the handful of literal names the
 * DFS client compares against.
 */
module Text {

  /** One UTF-16 code unit: the element type of a .NET string. */
  type CodeUnit = c: int | 0 <= c < 0x1_0000

  /** A .NET string. */
  type WString = seq<CodeUnit>

  const Backslash: CodeUnit := 0x5C
  const Slash: CodeUnit := 0x2F

  /** "SYSVOL" */
  const Sysvol: WString := [0x53, 0x59, 0x53, 0x56, 0x4F, 0x4C]
  /** "NETLOGON" */
  const Netlogon: WString := [0x4E, 0x45, 0x54, 0x4C, 0x4F, 0x47, 0x4F, 0x4E]
  /** "IPC$" */
  const Ipc: WString := [0x49, 0x50, 0x43, 0x24]

  /** Lower-casing of one code unit (ASCII letters only). */
  function Lower(c: CodeUnit): CodeUnit {
    if 0x41 <= c <= 0x5A then c + 0x20 else c
  }

  /** String.ToLower, restricted to ASCII letters. */
  function LowerString(s: WString): (r: WString)
    ensures |r| == |s|
    ensures forall i :: 0 <= i < |s| ==> r[i] == Lower(s[i])
  {
    seq(|s|, i requires 0 <= i < |s| => Lower(s[i]))
  }

  /** StringComparer.OrdinalIgnoreCase equality (ASCII letters only). */
  predicate EqualsIgnoreCase(a: WString, b: WString) {
    LowerString(a) == LowerString(b)
  }

  /** Lower-casing is idempotent, so a lower-cased key is its own key. */
  lemma LowerStringIdempotent(s: WString)
    ensures LowerString(LowerString(s)) == LowerString(s)
  {
  }
}
