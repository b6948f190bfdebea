/** String primitives of JavaScript that the responder relies on:
    `toLowerCase`, `includes`, `trim` and `replace` with a string pattern. */
module Text {

  /** Upper-case letters whose lower-case form `LowerChar` knows: ASCII A-Z and
      the Latin-1 capitals U+00C0..U+00DE except the multiplication sign U+00D7
      (this covers Á, É, Í, Ó, Ú, Ñ and Ü). */
  predicate IsUpper(c: char) {
    ('A' <= c <= 'Z') || ('\U{00C0}' <= c <= '\U{00DE}' && c != '\U{00D7}')
  }

  /** `String.prototype.toLowerCase` on one character of the modelled range. */
  function LowerChar(c: char): (r: char)
    ensures !IsUpper(r)
    ensures IsUpper(c) ==> r as int == c as int + 0x20
    ensures !IsUpper(c) ==> r == c
  {
    if IsUpper(c) then (c as int + 32) as char else c
  }

  function Lower(s: string): (r: string)
    ensures |r| == |s|
    ensures forall i :: 0 <= i < |s| ==> r[i] == LowerChar(s[i])
  {
    seq(|s|, i requires 0 <= i < |s| => LowerChar(s[i]))
  }

  /** After lower-casing, no upper-case letter is left, and lower-casing again changes nothing. */
  lemma LowerHasNoUpper(s: string)
    ensures forall i :: 0 <= i < |Lower(s)| ==> !IsUpper(Lower(s)[i])
    ensures Lower(Lower(s)) == Lower(s)
  {
  }

  predicate IsPrefix(p: string, s: string) {
    |p| <= |s| && s[..|p|] == p
  }

  /** `sub` is spelled by the window of `s` that starts at `i`. */
  predicate OccursAt(s: string, sub: string, i: int) {
    0 <= i <= |s| - |sub| && s[i..i + |sub|] == sub
  }

  /** `s.includes(sub)`: some window of `s` spells `sub`; the empty string is
      found in every string. */
  predicate Contains(s: string, sub: string)
    ensures sub == [] ==> Contains(s, sub)
    ensures |sub| > |s| ==> !Contains(s, sub)
  {
    assert sub == [] ==> OccursAt(s, sub, 0);
    exists i | 0 <= i <= |s| - |sub| :: OccursAt(s, sub, i)
  }

  /** Moving the search one character to the right. */
  lemma OccursShift(s: string, sub: string, i: int)
    requires |s| > 0 && i >= 1
    ensures OccursAt(s, sub, i) == OccursAt(s[1..], sub, i - 1)
  {
    if 0 <= i <= |s| - |sub| {
      assert s[1..][i - 1..i - 1 + |sub|] == s[i..i + |sub|];
    }
  }

  /** A string is found in any string built around it. */
  lemma FoundBetween(x: string, w: string, y: string)
    ensures Contains(x + w + y, w)
  {
    assert (x + w + y)[|x|..|x| + |w|] == w;
    assert OccursAt(x + w + y, w, |x|);
  }

  /** Every character of a found string occurs in the string searched. */
  lemma ContainsHasChars(s: string, sub: string, k: nat)
    requires Contains(s, sub) && k < |sub|
    ensures sub[k] in s
  {
    var i :| 0 <= i <= |s| - |sub| && OccursAt(s, sub, i);
    assert s[i + k] == s[i..i + |sub|][k];
  }

  /** A string is not found where one of its characters does not occur. */
  lemma NotIn(m: string, word: string, c: char)
    requires c in word && c !in m
    ensures !Contains(m, word)
  {
    if Contains(m, word) {
      var k :| 0 <= k < |word| && word[k] == c;
      ContainsHasChars(m, word, k);
    }
  }

  /** A string is not found where its first character occurs only at `j`
      and is not followed there by its second character. */
  lemma NotInAfterOnlyStart(m: string, word: string, j: nat)
    requires |word| >= 2 && j + 1 < |m|
    requires word[0] !in m[..j] && word[0] !in m[j + 1..] && m[j + 1] != word[1]
    ensures !Contains(m, word)
  {
    forall i | 0 <= i <= |m| - |word|
      ensures !OccursAt(m, word, i)
    {
      if i < j {
        assert m[..j][i] == m[i];
      } else if i > j {
        assert m[j + 1..][i - j - 1] == m[i];
      }
      assert m[i..i + |word|][0] == m[i] && m[i..i + |word|][1] == m[i + 1];
    }
  }

  /** A string holding an upper-case letter is never found in a lower-cased string. */
  lemma UpperNeverInLower(msg: string, word: string, k: nat)
    requires k < |word| && IsUpper(word[k])
    ensures !Contains(Lower(msg), word)
  {
    if Contains(Lower(msg), word) {
      ContainsHasChars(Lower(msg), word, k);
      assert false;
    }
  }

  /** JavaScript's WhiteSpace and LineTerminator characters, the set `trim` removes. */
  predicate IsSpace(c: char) {
    c == '\t' || c == '\n' || c == '\U{000B}' || c == '\U{000C}' || c == '\r' || c == ' '
    || c == '\U{00A0}' || c == '\U{1680}' || ('\U{2000}' <= c <= '\U{200A}')
    || c == '\U{2028}' || c == '\U{2029}' || c == '\U{202F}' || c == '\U{205F}'
    || c == '\U{3000}' || c == '\U{FEFF}'
  }

  /** `trimStart`: the longest suffix of `s` not starting with white space. */
  function TrimStart(s: string): (r: string)
    ensures |r| <= |s| && r == s[|s| - |r|..]
    ensures forall k :: 0 <= k < |s| - |r| ==> IsSpace(s[k])
    ensures r == [] || !IsSpace(r[0])
    decreases |s|
  {
    if |s| > 0 && IsSpace(s[0]) then TrimStart(s[1..]) else s
  }

  /** `trimEnd`: the longest prefix of `s` not ending with white space. */
  function TrimEnd(s: string): (r: string)
    ensures |r| <= |s| && r == s[..|r|]
    ensures forall k :: |r| <= k < |s| ==> IsSpace(s[k])
    ensures r == [] || !IsSpace(r[|r| - 1])
    decreases |s|
  {
    if |s| > 0 && IsSpace(s[|s| - 1]) then TrimEnd(s[..|s| - 1]) else s
  }

  /** `String.prototype.trim`: the result neither starts nor ends with white
      space, and a text that already does not is kept as it is. */
  function Trim(s: string): (r: string)
    ensures |r| <= |s|
    ensures r == [] || (!IsSpace(r[0]) && !IsSpace(r[|r| - 1]))
    ensures (s == [] || (!IsSpace(s[0]) && !IsSpace(s[|s| - 1]))) ==> r == s
  {
    var t := TrimStart(s);
    var r := TrimEnd(t);
    assert r != [] ==> r[0] == t[0];
    r
  }

  /** `kept` is `s[i..j]` and everything cut off around it is white space. */
  predicate TrimmedWindow(s: string, i: int, j: int, kept: string) {
    0 <= i <= j <= |s| && kept == s[i..j]
    && (forall k :: 0 <= k < i ==> IsSpace(s[k]))
    && (forall k :: j <= k < |s| ==> IsSpace(s[k]))
  }

  /** `Trim(s)` is a window of `s`, and everything cut off around it is white
      space. */
  lemma TrimSpec(s: string)
    ensures exists i, j :: TrimmedWindow(s, i, j, Trim(s))
  {
    var t := TrimStart(s);
    var r := TrimEnd(t);
    var i := |s| - |t|;
    assert Trim(s) == r;
    assert r == s[i..i + |r|];
    assert TrimmedWindow(s, i, i + |r|, r);
  }

  /** Trimming an already trimmed string changes nothing. */
  lemma TrimIdempotent(s: string)
    ensures Trim(Trim(s)) == Trim(s)
  {
  }

  /** `s.replace(pat, "")` for a string pattern: only the first occurrence is removed. */
  function RemoveFirst(s: string, pat: string): (r: string)
    requires pat != []
    ensures |r| == |s| || |r| == |s| - |pat|
    decreases |s|
  {
    if IsPrefix(pat, s) then s[|pat|..]
    else if s == [] then []
    else [s[0]] + RemoveFirst(s[1..], pat)
  }

  /** The first occurrence is the one removed: when `pat` occurs at `i` and at
      no earlier index, the result is `s` with the window at `i` cut out. */
  lemma {:induction false} RemoveFirstAt(s: string, pat: string, i: nat)
    requires pat != [] && OccursAt(s, pat, i)
    requires forall j :: 0 <= j < i ==> !OccursAt(s, pat, j)
    ensures RemoveFirst(s, pat) == s[..i] + s[i + |pat|..]
    decreases i
  {
    if i == 0 {
      assert IsPrefix(pat, s);
    } else {
      assert !OccursAt(s, pat, 0);
      assert !IsPrefix(pat, s);
      OccursShift(s, pat, i);
      forall j | 0 <= j < i - 1
        ensures !OccursAt(s[1..], pat, j)
      {
        OccursShift(s, pat, j + 1);
      }
      RemoveFirstAt(s[1..], pat, i - 1);
      assert s[..i] == [s[0]] + s[1..][..i - 1];
      assert s[i + |pat|..] == s[1..][i - 1 + |pat|..];
    }
  }

  /** A string without the pattern is left as it is. */
  lemma {:induction false} RemoveFirstAbsent(s: string, pat: string)
    requires pat != [] && !Contains(s, pat)
    ensures RemoveFirst(s, pat) == s
    decreases |s|
  {
    if s != [] {
      assert !OccursAt(s, pat, 0);
      forall i | 0 <= i
        ensures !OccursAt(s[1..], pat, i)
      {
        OccursShift(s, pat, i + 1);
      }
      RemoveFirstAbsent(s[1..], pat);
    }
  }

  /** A string holding the pattern loses exactly the pattern's length. */
  lemma {:induction false} RemoveFirstFound(s: string, pat: string)
    requires pat != [] && Contains(s, pat)
    ensures |RemoveFirst(s, pat)| == |s| - |pat|
    decreases |s|
  {
    if !IsPrefix(pat, s) {
      var i :| 0 <= i <= |s| - |pat| && OccursAt(s, pat, i);
      assert i != 0;
      OccursShift(s, pat, i);
      RemoveFirstFound(s[1..], pat);
    }
  }

  /** Removing a suffix that begins with a character absent from the front part
      gives the front part back: "5491122334455@c.us" becomes "5491122334455". */
  lemma {:induction false} RemoveFirstSuffix(u: string, pat: string)
    requires pat != [] && pat[0] !in u
    ensures RemoveFirst(u + pat, pat) == u
    decreases |u|
  {
    if u == [] {
      assert u + pat == pat;
    } else {
      assert (u + pat)[0] == u[0] != pat[0];
      assert (u + pat)[1..] == u[1..] + pat;
      RemoveFirstSuffix(u[1..], pat);
    }
  }
}
