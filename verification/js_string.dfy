/**
  JavaScript's `String.prototype.trim`, over strings as sequences of
  characters. Whitespace is the union of ECMA-262's WhiteSpace and
  LineTerminator productions, which is exactly the set `trim` strips.
 */
module JsString {

  /** ECMA-262 WhiteSpace (TAB, VT, FF, ZWNBSP and the Zs category) and
      LineTerminator (LF, CR, LS, PS) code points. */
  predicate IsWs(c: char) {
    || c == '\U{0009}' || c == '\U{000B}' || c == '\U{000C}' || c == '\U{0020}'
    || c == '\U{00A0}' || c == '\U{FEFF}' || c == '\U{1680}'
    || ('\U{2000}' <= c <= '\U{200A}')
    || c == '\U{202F}' || c == '\U{205F}' || c == '\U{3000}'
    || c == '\U{000A}' || c == '\U{000D}' || c == '\U{2028}' || c == '\U{2029}'
  }

  predicate AllWs(s: string) {
    forall k :: 0 <= k < |s| ==> IsWs(s[k])
  }

  /** Neither the first nor the last character is whitespace. */
  predicate NoEdgeWs(s: string) {
    s == [] || (!IsWs(s[0]) && !IsWs(s[|s| - 1]))
  }

  /** Reference definition of trimming, independent of any algorithm:
      `r` is the slice `s[i..j]` left after removing a whitespace-only
      prefix and suffix, and `r` itself has no whitespace at either edge. */
  ghost predicate IsTrimOf(r: string, s: string) {
    exists i, j :: 0 <= i <= j <= |s| && r == s[i..j]
                   && AllWs(s[..i]) && AllWs(s[j..]) && NoEdgeWs(r)
  }

  /** Drops leading whitespace. */
  function TrimStart(s: string): (r: string)
    ensures |r| <= |s| && r == s[|s| - |r|..]
    ensures AllWs(s[..|s| - |r|])
    ensures r == [] || !IsWs(r[0])
    decreases |s|
  {
    if |s| > 0 && IsWs(s[0]) then TrimStart(s[1..]) else s
  }

  /** Drops trailing whitespace. */
  function TrimEnd(s: string): (r: string)
    ensures |r| <= |s| && r == s[..|r|]
    ensures AllWs(s[|r|..])
    ensures r == [] || !IsWs(r[|r| - 1])
    decreases |s|
  {
    if |s| > 0 && IsWs(s[|s| - 1]) then TrimEnd(s[..|s| - 1]) else s
  }

  /** `s.trim()`: leading and trailing whitespace removed. */
  function Trim(s: string): (r: string)
    ensures IsTrimOf(r, s)
  {
    var t := TrimStart(s);
    var r := TrimEnd(t);
    var i := |s| - |t|;
    assert s[i..i + |r|] == r;
    assert s[i + |r|..] == t[|r|..];
    r
  }

  /** Two whitespace-trimmings of the same string coincide. */
  lemma SameSlice(s: string, i1: nat, j1: nat, i2: nat, j2: nat)
    requires i1 <= j1 <= |s| && AllWs(s[..i1]) && AllWs(s[j1..]) && NoEdgeWs(s[i1..j1])
    requires i2 <= j2 <= |s| && AllWs(s[..i2]) && AllWs(s[j2..]) && NoEdgeWs(s[i2..j2])
    ensures s[i1..j1] == s[i2..j2]
  {
  }

  /** The reference definition determines the trimmed string uniquely, so
      `Trim` is the one and only string meeting it. */
  lemma TrimUnique(r: string, s: string)
    requires IsTrimOf(r, s)
    ensures r == Trim(s)
  {
    var i1, j1 :| 0 <= i1 <= j1 <= |s| && r == s[i1..j1]
                  && AllWs(s[..i1]) && AllWs(s[j1..]) && NoEdgeWs(r);
    var t := Trim(s);
    var i2, j2 :| 0 <= i2 <= j2 <= |s| && t == s[i2..j2]
                  && AllWs(s[..i2]) && AllWs(s[j2..]) && NoEdgeWs(t);
    SameSlice(s, i1, j1, i2, j2);
  }

  /** A string trims to empty exactly when it is all whitespace. */
  lemma TrimEmptyIff(s: string)
    ensures Trim(s) == [] <==> AllWs(s)
  {
    var t := Trim(s);
    var i, j :| 0 <= i <= j <= |s| && t == s[i..j]
                && AllWs(s[..i]) && AllWs(s[j..]) && NoEdgeWs(t);
    if t == [] {
      forall k | 0 <= k < |s| ensures IsWs(s[k]) {
        if k < i { assert s[..i][k] == s[k]; } else { assert s[j..][k - j] == s[k]; }
      }
    } else {
      assert t[0] == s[i];
    }
  }

  /** Trimming is idempotent. */
  lemma TrimIdempotent(s: string)
    ensures Trim(Trim(s)) == Trim(s)
  {
    var t := Trim(s);
    var i, j :| 0 <= i <= j <= |s| && t == s[i..j]
                && AllWs(s[..i]) && AllWs(s[j..]) && NoEdgeWs(t);
    assert t[..0] == [] && t[|t|..] == [] && t[0..|t|] == t;
    TrimUnique(t, t);
  }

  /** Whitespace padding around a string with non-whitespace edges is
      exactly what trimming removes. */
  lemma TrimPadded(pre: string, t: string, post: string)
    requires AllWs(pre) && AllWs(post) && NoEdgeWs(t)
    ensures Trim(pre + t + post) == t
  {
    var s := pre + t + post;
    var i, j := |pre|, |pre| + |t|;
    assert s[i..j] == t && s[..i] == pre && s[j..] == post;
    TrimUnique(t, s);
  }
}
