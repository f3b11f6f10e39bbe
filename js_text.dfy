/** The JavaScript string operations the search boxes and form checks use:
    `toLowerCase`, `includes`, `trim` and truthiness of a nullable string. */
module JsText {
  import opened Wrappers

  /** `s` is truthy: present and not the empty string. */
  predicate Truthy(s: Option<string>) {
    s.Some? && s.value != ""
  }

  /** Lower-casing of one character: the ASCII capitals map to their small
      letters and every other character is left alone. */
  function LowerChar(c: char): (r: char)
    ensures 'A' <= c <= 'Z' ==> 'a' <= r <= 'z' && r as int - c as int == 32
    ensures !('A' <= c <= 'Z') ==> r == c
  {
    if 'A' <= c <= 'Z' then (c as int + 32) as char else c
  }

  /** `s.toLowerCase()`, character by character. */
  function Lower(s: string): (r: string)
    ensures |r| == |s|
    ensures forall i :: 0 <= i < |s| ==> r[i] == LowerChar(s[i])
  {
    if s == [] then [] else [LowerChar(s[0])] + Lower(s[1..])
  }

  /** A string without capitals is its own lowercase. */
  lemma LowerKeepsSmall(s: string)
    requires forall i :: 0 <= i < |s| ==> !('A' <= s[i] <= 'Z')
    ensures Lower(s) == s
  {
  }

  /** `needle` occurs in `hay` starting at index `i`. */
  predicate OccursAt(hay: string, needle: string, i: int) {
    0 <= i && i + |needle| <= |hay| && hay[i..i + |needle|] == needle
  }

  /** `hay.includes(needle)`. */
  function Includes(hay: string, needle: string): (r: bool)
    ensures r <==> exists i :: OccursAt(hay, needle, i)
    decreases |hay|
  {
    if |needle| > |hay| then false
    else if hay[..|needle|] == needle then (assert OccursAt(hay, needle, 0); true)
    else
      var rest := Includes(hay[1..], needle);
      ShiftOccurrence(hay, needle);
      rest
  }

  /** An occurrence in `hay[1..]` is an occurrence in `hay` one place later. */
  lemma ShiftOccurrence(hay: string, needle: string)
    requires |needle| <= |hay| && hay[..|needle|] != needle
    ensures (exists i :: OccursAt(hay[1..], needle, i)) <==> (exists i :: OccursAt(hay, needle, i))
  {
    forall i | OccursAt(hay[1..], needle, i) ensures OccursAt(hay, needle, i + 1) {
      assert hay[1..][i..i + |needle|] == hay[i + 1..i + 1 + |needle|];
    }
    forall i | OccursAt(hay, needle, i) ensures i > 0 && OccursAt(hay[1..], needle, i - 1) {
      assert hay[1..][i - 1..i - 1 + |needle|] == hay[i..i + |needle|];
    }
  }

  /** Every string includes the empty string. */
  lemma IncludesEmpty(hay: string)
    ensures Includes(hay, "")
  {
    assert OccursAt(hay, "", 0);
  }

  /** Containment of substrings is transitive: a string including `mid`
      includes everything `mid` includes. */
  lemma IncludesTransitive(hay: string, mid: string, needle: string)
    requires Includes(hay, mid) && Includes(mid, needle)
    ensures Includes(hay, needle)
  {
    var i :| OccursAt(hay, mid, i);
    var j :| OccursAt(mid, needle, j);
    var window, inner := hay[i + j..i + j + |needle|], mid[j..j + |needle|];
    forall k | 0 <= k < |needle| ensures window[k] == inner[k] {
      assert window[k] == hay[i..i + |mid|][j + k];
    }
    assert window == inner;
    assert OccursAt(hay, needle, i + j);
  }

  /** The characters `trim` removes: ECMAScript WhiteSpace (tab, vertical tab,
      form feed, space, no-break space, byte-order mark and the other Unicode
      space separators) and LineTerminator (line feed, carriage return, line
      and paragraph separators). */
  predicate IsWhiteSpace(c: char) {
    var n := c as int;
    n == 0x09 || n == 0x0A || n == 0x0B || n == 0x0C || n == 0x0D || n == 0x20
    || n == 0xA0 || n == 0x1680 || (0x2000 <= n <= 0x200A) || n == 0x2028 || n == 0x2029
    || n == 0x202F || n == 0x205F || n == 0x3000 || n == 0xFEFF
  }

  /** Leading white space removed: the longest suffix not starting with white space. */
  function TrimStart(s: string): (r: string)
    ensures |r| <= |s| && r == s[|s| - |r|..]
    ensures r == [] || !IsWhiteSpace(r[0])
    ensures forall i :: 0 <= i < |s| - |r| ==> IsWhiteSpace(s[i])
  {
    if s != [] && IsWhiteSpace(s[0]) then TrimStart(s[1..]) else s
  }

  /** Trailing white space removed: the longest prefix not ending in white space. */
  function TrimEnd(s: string): (r: string)
    ensures |r| <= |s| && r == s[..|r|]
    ensures r == [] || !IsWhiteSpace(r[|r| - 1])
    ensures forall i :: |r| <= i < |s| ==> IsWhiteSpace(s[i])
  {
    if s != [] && IsWhiteSpace(s[|s| - 1]) then TrimEnd(s[..|s| - 1]) else s
  }

  /** `s.trim()`: neither starts nor ends with white space. */
  function Trim(s: string): (r: string)
    ensures r == [] || (!IsWhiteSpace(r[0]) && !IsWhiteSpace(r[|r| - 1]))
  {
    TrimEnd(TrimStart(s))
  }

  /** What `trim` returns is a piece of its input, with only white space cut
      off on either side. */
  lemma TrimCutsWhiteSpace(s: string)
    ensures exists k :: OccursAt(s, Trim(s), k)
    ensures forall i :: 0 <= i < |s| - |TrimStart(s)| ==> IsWhiteSpace(s[i])
    ensures forall i :: |s| - |TrimStart(s)| + |Trim(s)| <= i < |s| ==> IsWhiteSpace(s[i])
  {
    TrimOccurs(s);
    TrimTail(s);
  }

  lemma TrimOccurs(s: string)
    ensures OccursAt(s, Trim(s), |s| - |TrimStart(s)|)
  {
    var t := TrimStart(s);
    var r := TrimEnd(t);
    PieceOfSuffix(s, t, |r|);
  }

  lemma TrimTail(s: string)
    ensures forall i :: |s| - |TrimStart(s)| + |Trim(s)| <= i < |s| ==> IsWhiteSpace(s[i])
  {
    var t := TrimStart(s);
    var r := TrimEnd(t);
    forall i | |s| - |t| + |r| <= i < |s| ensures IsWhiteSpace(s[i]) {
      PieceOfSuffix(s, t, i - (|s| - |t|) + 1);
    }
  }

  /** The first `n` characters of a suffix `t` of `s` sit in `s` where `t` starts. */
  lemma PieceOfSuffix(s: string, t: string, n: int)
    requires |t| <= |s| && t == s[|s| - |t|..] && 0 <= n <= |t|
    ensures OccursAt(s, t[..n], |s| - |t|)
    ensures n > 0 ==> s[|s| - |t| + n - 1] == t[n - 1]
  {
    assert s[|s| - |t|..][..n] == s[|s| - |t|..|s| - |t| + n];
  }

  /** `s.trim() === ''` exactly when every character of `s` is white space. */
  lemma TrimEmptyIffBlank(s: string)
    ensures Trim(s) == "" <==> forall i :: 0 <= i < |s| ==> IsWhiteSpace(s[i])
  {
    if forall i :: 0 <= i < |s| ==> IsWhiteSpace(s[i]) {
      AllWhiteSpaceTrimsToEmpty(s);
    } else {
      var k :| 0 <= k < |s| && !IsWhiteSpace(s[k]);
      NonBlankSurvivesTrim(s, k);
    }
  }

  lemma AllWhiteSpaceTrimsToEmpty(s: string)
    requires forall i :: 0 <= i < |s| ==> IsWhiteSpace(s[i])
    ensures Trim(s) == ""
  {
    var t := TrimStart(s);
  }

  lemma NonBlankSurvivesTrim(s: string, k: int)
    requires 0 <= k < |s| && !IsWhiteSpace(s[k])
    ensures Trim(s) != ""
  {
    var t := TrimStart(s);
    assert |s| - |t| <= k;
    assert t != [] && !IsWhiteSpace(t[0]);
  }
}
