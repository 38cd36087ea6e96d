/** The JavaScript string operations the portfolio relies on:
    `String.prototype.includes`, `trim` and `toLowerCase`. */
module Text {

  /** `s.includes(sub)`: sub occurs somewhere in s. */
  predicate Contains(s: string, sub: string) {
    exists i :: 0 <= i <= |s| && sub <= s[i..]
  }

  /** A witness position makes an occurrence. */
  lemma ContainsAt(s: string, sub: string, i: nat)
    requires i <= |s| && sub <= s[i..]
    ensures Contains(s, sub)
  {
  }

  /** If some character of sub never occurs in s, sub does not occur in s. */
  lemma MissingChar(s: string, sub: string, k: nat)
    requires k < |sub| && sub[k] !in s
    ensures !Contains(s, sub)
  {
    forall i | 0 <= i <= |s| ensures !(sub <= s[i..]) {
      if i + |sub| <= |s| {
        assert s[i..][k] != sub[k];
      }
    }
  }

  /** If the first two characters of sub are never adjacent in s, sub does not occur in s. */
  lemma MissingPair(s: string, sub: string)
    requires |sub| >= 2
    requires forall i :: 0 <= i < |s| - 1 ==> !(s[i] == sub[0] && s[i + 1] == sub[1])
    ensures !Contains(s, sub)
  {
    forall i | 0 <= i <= |s| ensures !(sub <= s[i..]) {
      if i + |sub| <= |s| {
        assert !(s[i..][0] == sub[0] && s[i..][1] == sub[1]);
      }
    }
  }

  /** The characters `String.prototype.trim` removes (WhiteSpace and
      LineTerminator of section 12.2 and 12.3 of ECMA-262). */
  predicate IsSpace(c: char) {
    c == ' ' || c == '\t' || c == '\n' || c == '\r' || c == '\U{000B}' || c == '\U{000C}'
    || c == '\U{00A0}' || c == '\U{1680}' || ('\U{2000}' <= c <= '\U{200A}')
    || c == '\U{2028}' || c == '\U{2029}' || c == '\U{202F}' || c == '\U{205F}'
    || c == '\U{3000}' || c == '\U{FEFF}'
  }

  /** The first position at or after i that does not hold whitespace (|s| if none). */
  function SkipSpace(s: string, i: nat): (k: nat)
    requires i <= |s|
    ensures i <= k <= |s|
    ensures forall j :: i <= j < k ==> IsSpace(s[j])
    ensures k < |s| ==> !IsSpace(s[k])
    decreases |s| - i
  {
    if i < |s| && IsSpace(s[i]) then SkipSpace(s, i + 1) else i
  }

  /** The end of the text before position j once trailing whitespace is dropped (0 if none). */
  function SkipSpaceBack(s: string, j: nat): (k: nat)
    requires j <= |s|
    ensures k <= j
    ensures forall i :: k <= i < j ==> IsSpace(s[i])
    ensures k > 0 ==> !IsSpace(s[k - 1])
  {
    if j > 0 && IsSpace(s[j - 1]) then SkipSpaceBack(s, j - 1) else j
  }

  /** Leading whitespace removed: the longest suffix of s not starting with whitespace. */
  function TrimStart(s: string): (r: string)
    ensures |r| <= |s| && r == s[|s| - |r|..]
    ensures r == [] || !IsSpace(r[0])
    ensures forall i :: 0 <= i < |s| - |r| ==> IsSpace(s[i])
  {
    s[SkipSpace(s, 0)..]
  }

  /** Trailing whitespace removed: the longest prefix of s not ending with whitespace. */
  function TrimEnd(s: string): (r: string)
    ensures |r| <= |s| && r == s[..|r|]
    ensures r == [] || !IsSpace(r[|r| - 1])
    ensures forall i :: |r| <= i < |s| ==> IsSpace(s[i])
  {
    s[..SkipSpaceBack(s, |s|)]
  }

  /** `s.trim()`. */
  function Trim(s: string): string {
    TrimEnd(TrimStart(s))
  }

  /** A prefix u of the suffix t = s[a..] is the slice s[a..a + |u|], and what
      follows it in s is what follows it in t. */
  lemma PrefixOfSuffix(s: string, t: string, u: string, a: nat)
    requires a <= |s| && t == s[a..] && |u| <= |t| && u == t[..|u|]
    ensures a + |u| <= |s| && u == s[a..a + |u|]
    ensures forall i :: a + |u| <= i < |s| ==> s[i] == t[i - a]
  {
  }

  /** What trimming keeps is the slice of s after the leading whitespace. */
  lemma TrimIsSlice(s: string)
    ensures var a := |s| - |TrimStart(s)|;
      a + |Trim(s)| <= |s| && Trim(s) == s[a..a + |Trim(s)|]
  {
    var t := TrimStart(s);
    PrefixOfSuffix(s, t, TrimEnd(t), |s| - |t|);
  }

  /** What trimming cuts off after the kept slice is whitespace. */
  lemma TrimCutsSpaceAfter(s: string)
    ensures forall i :: |s| - |TrimStart(s)| + |Trim(s)| <= i < |s| ==> IsSpace(s[i])
  {
    var t := TrimStart(s);
    var u := TrimEnd(t);
    var a := |s| - |t|;
    PrefixOfSuffix(s, t, u, a);
    forall i | a + |u| <= i < |s| ensures IsSpace(s[i]) {
      assert s[i] == t[i - a];
    }
  }

  /** A non-empty trimmed string neither starts nor ends with whitespace. */
  lemma TrimEndsNonSpace(s: string)
    ensures Trim(s) == [] || (!IsSpace(Trim(s)[0]) && !IsSpace(Trim(s)[|Trim(s)| - 1]))
  {
    var t := TrimStart(s);
    var u := TrimEnd(t);
    assert u == [] || u[0] == t[0];
  }

  /** Trimming keeps a contiguous slice of the input that neither starts nor
      ends with whitespace; what is cut off on either side is whitespace. */
  lemma TrimShape(s: string)
    ensures var a := |s| - |TrimStart(s)|;
      a + |Trim(s)| <= |s| && Trim(s) == s[a..a + |Trim(s)|]
      && (forall i :: 0 <= i < a ==> IsSpace(s[i]))
      && (forall i :: a + |Trim(s)| <= i < |s| ==> IsSpace(s[i]))
    ensures Trim(s) == [] || (!IsSpace(Trim(s)[0]) && !IsSpace(Trim(s)[|Trim(s)| - 1]))
  {
    TrimIsSlice(s);
    TrimCutsSpaceAfter(s);
    TrimEndsNonSpace(s);
  }

  /** `trim()` is empty exactly when the input is all whitespace. */
  lemma TrimEmptyIff(s: string)
    ensures Trim(s) == [] <==> forall i :: 0 <= i < |s| ==> IsSpace(s[i])
  {
    TrimShape(s);
    var a := |s| - |TrimStart(s)|;
    if Trim(s) != [] {
      assert !IsSpace(s[a]);
    }
  }

  /** Trimming twice is trimming once. */
  lemma TrimIdempotent(s: string)
    ensures Trim(Trim(s)) == Trim(s)
  {
    var t := Trim(s);
    TrimShape(s);
    assert TrimStart(t) == t;
    assert TrimEnd(t) == t;
  }

  /** `toLowerCase` on one character, restricted to ASCII: A-Z become a-z and
      every other character is kept. */
  function LowerChar(c: char): (d: char)
    ensures IsSpace(d) <==> IsSpace(c)
    ensures !('A' <= d <= 'Z')
    ensures 'A' <= c <= 'Z' ==> d != c
    ensures !('A' <= c <= 'Z') ==> d == c
  {
    if 'A' <= c <= 'Z' then (c as int + 32) as char else c
  }

  /** `s.toLowerCase()` with ASCII case mapping: same length, every ASCII
      capital lowered, every other character kept. */
  function Lower(s: string): (r: string)
    ensures |r| == |s|
  {
    seq(|s|, i requires 0 <= i < |s| => LowerChar(s[i]))
  }

  /** Lowering a lowered string changes nothing. */
  lemma LowerIdempotent(s: string)
    ensures Lower(Lower(s)) == Lower(s)
  {
  }

  /** The terminal's normalisation `command.toLowerCase().trim()`. */
  function Normalize(s: string): string {
    Trim(Lower(s))
  }

  /** No ASCII capital letters anywhere in s. */
  predicate NoUpper(s: string) {
    forall i :: 0 <= i < |s| ==> !('A' <= s[i] <= 'Z')
  }

  /** Lowering leaves no capitals, and changes nothing where there are none. */
  lemma LowerNoUpper(s: string)
    ensures NoUpper(Lower(s))
    ensures NoUpper(s) ==> Lower(s) == s
  {
  }

  /** A trimmed string is a slice of the input, so it has capitals only where the input has. */
  lemma TrimNoUpper(s: string)
    requires NoUpper(s)
    ensures NoUpper(Trim(s))
  {
    var a := |s| - |TrimStart(s)|;
    var t := Trim(s);
    TrimIsSlice(s);
    forall i | 0 <= i < |t| ensures !('A' <= t[i] <= 'Z') {
      assert t[i] == s[a + i];
    }
  }

  /** Normalising a normalised command changes nothing: dispatch on an already
      normalised command picks the same case. */
  lemma NormalizeIdempotent(s: string)
    ensures Normalize(Normalize(s)) == Normalize(s)
  {
    var l := Lower(s);
    var t := Trim(l);
    LowerNoUpper(s);
    TrimNoUpper(l);
    LowerNoUpper(t);
    TrimIdempotent(l);
  }
}
