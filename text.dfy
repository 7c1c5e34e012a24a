/**
 * The string primitives the heuristics are built from, with Python's meaning:
 * `str.strip()`, `in` (substring), `startswith`/`endswith`, `str.replace(p, "")`,
 * `split(c, 1)[1]`, and the character classes behind the regular expressions
 * (`\s`, `\w`, `\b`). Case-insensitive matching uses ASCII lower-casing.
 */
module Text {

  /** Python's `str.isspace()` for one character, which is also what `\s` and `strip()` use. */
  predicate IsSpace(c: char)
  {
    || ('\t' <= c <= '\r')
    || ('\U{1C}' <= c <= ' ')
    || c == '\U{85}' || c == '\U{A0}' || c == '\U{1680}'
    || ('\U{2000}' <= c <= '\U{200A}')
    || c == '\U{2028}' || c == '\U{2029}' || c == '\U{202F}' || c == '\U{205F}' || c == '\U{3000}'
  }

  /** A regular-expression word character `\w` (ASCII letters, digits and underscore). */
  predicate IsWordChar(c: char)
  {
    ('a' <= c <= 'z') || ('A' <= c <= 'Z') || ('0' <= c <= '9') || c == '_'
  }

  predicate AllSpace(s: string)
  {
    forall i :: 0 <= i < |s| ==> IsSpace(s[i])
  }

  predicate AllWord(s: string)
  {
    forall i :: 0 <= i < |s| ==> IsWordChar(s[i])
  }

  /** `\b` at position i of s: a word character on exactly one side of it. */
  predicate Boundary(s: string, i: int)
    requires 0 <= i <= |s|
  {
    (i > 0 && IsWordChar(s[i - 1])) != (i < |s| && IsWordChar(s[i]))
  }

  /** p occurs in s starting at index i. */
  predicate OccursAt(s: string, p: string, i: int)
  {
    0 <= i && i + |p| <= |s| && s[i..i + |p|] == p
  }

  /** Python's `p in s` for strings. */
  predicate Contains(s: string, p: string)
  {
    exists i | 0 <= i <= |s| :: OccursAt(s, p, i)
  }

  predicate StartsWith(s: string, p: string)
  {
    |p| <= |s| && s[..|p|] == p
  }

  predicate EndsWith(s: string, p: string)
  {
    |p| <= |s| && s[|s| - |p|..] == p
  }

  /** `s.lstrip()`. */
  function StripLeft(s: string): string
  {
    if |s| > 0 && IsSpace(s[0]) then StripLeft(s[1..]) else s
  }

  /** `s.rstrip()`. */
  function StripRight(s: string): string
  {
    if |s| > 0 && IsSpace(s[|s| - 1]) then StripRight(s[..|s| - 1]) else s
  }

  /** `s.strip()`: s with its leading and trailing whitespace removed. */
  function Strip(s: string): string
  {
    StripRight(StripLeft(s))
  }

  /** `s.replace(p, "")`: every occurrence of p, found left to right without overlap, removed. */
  function RemoveAll(s: string, p: string): (r: string)
    requires p != []
    ensures |r| <= |s|
    decreases |s|
  {
    if |s| < |p| then s
    else if s[..|p|] == p then RemoveAll(s[|p|..], p)
    else [s[0]] + RemoveAll(s[1..], p)
  }

  /** `s.split(c, 1)[1]`: what follows the first c. */
  function AfterFirst(s: string, c: char): (r: string)
    requires c in s
    ensures |r| < |s| && r == s[|s| - |r|..]
    ensures c == s[|s| - |r| - 1] && c !in s[..|s| - |r| - 1]
  {
    if s[0] == c then s[1..]
    else
      var r := AfterFirst(s[1..], c);
      assert s[..|s| - |r| - 1] == [s[0]] + s[1..][..|s| - 1 - |r| - 1];
      r
  }

  /** ASCII lower-casing of one character. */
  function LowerChar(c: char): char
  {
    if 'A' <= c <= 'Z' then (c as int - 'A' as int + 'a' as int) as char else c
  }

  /** The string compared case-insensitively: every character lower-cased. */
  function Lower(s: string): (r: string)
    ensures |r| == |s| && forall i :: 0 <= i < |s| ==> r[i] == LowerChar(s[i])
  {
    seq(|s|, i requires 0 <= i < |s| => LowerChar(s[i]))
  }

  /** `sep.join(parts)`. */
  function Join(parts: seq<string>, sep: string): string
  {
    if parts == [] then ""
    else if |parts| == 1 then parts[0]
    else parts[0] + sep + Join(parts[1..], sep)
  }

  // ---- facts about the primitives ----

  lemma {:induction false} StripLeftSpec(s: string)
    ensures var r := StripLeft(s);
            |r| <= |s| && r == s[|s| - |r|..] && AllSpace(s[..|s| - |r|]) && (r == [] || !IsSpace(r[0]))
    decreases |s|
  {
    if |s| > 0 && IsSpace(s[0]) {
      StripLeftSpec(s[1..]);
      var r := StripLeft(s[1..]);
      assert s[..|s| - |r|] == [s[0]] + s[1..][..|s| - 1 - |r|];
    }
  }

  lemma {:induction false} StripRightSpec(s: string)
    ensures var r := StripRight(s);
            |r| <= |s| && r == s[..|r|] && AllSpace(s[|r|..]) && (r == [] || !IsSpace(r[|r| - 1]))
    decreases |s|
  {
    if |s| > 0 && IsSpace(s[|s| - 1]) {
      StripRightSpec(s[..|s| - 1]);
      var r := StripRight(s[..|s| - 1]);
      assert s[|r|..] == s[..|s| - 1][|r|..] + [s[|s| - 1]];
    }
  }

  /** `strip()` returns a slice of s that neither starts nor ends with whitespace, and only whitespace is cut. */
  lemma StripSpec(s: string)
    ensures var r := Strip(s);
            && (exists i :: 0 <= i <= |s| - |r| && r == s[i..i + |r|]
                            && AllSpace(s[..i]) && AllSpace(s[i + |r|..]))
            && (r == [] || (!IsSpace(r[0]) && !IsSpace(r[|r| - 1])))
  {
    var l := StripLeft(s);
    StripLeftSpec(s);
    StripRightSpec(l);
    var r := StripRight(l);
    var i := |s| - |l|;
    assert r == s[i..i + |r|];
    assert s[i + |r|..] == l[|r|..];
  }

  /** A string that neither starts nor ends with whitespace is its own `strip()`. */
  lemma StripUnchanged(s: string)
    requires s == [] || (!IsSpace(s[0]) && !IsSpace(s[|s| - 1]))
    ensures Strip(s) == s
  {
  }

  /** Stripping never removes a non-space character. */
  lemma StripKeepsNonSpace(s: string, c: char)
    requires !IsSpace(c)
    ensures c in Strip(s) <==> c in s
  {
    StripSpec(s);
    var r := Strip(s);
    var i :| 0 <= i <= |s| - |r| && r == s[i..i + |r|] && AllSpace(s[..i]) && AllSpace(s[i + |r|..]);
    SliceKeepsNonSpace(s, i, i + |r|, c);
  }

  /** Cutting only whitespace off both ends keeps every non-space character. */
  lemma SliceKeepsNonSpace(s: string, i: int, j: int, c: char)
    requires 0 <= i <= j <= |s| && AllSpace(s[..i]) && AllSpace(s[j..]) && !IsSpace(c)
    ensures c in s[i..j] <==> c in s
  {
    if c in s {
      var k :| 0 <= k < |s| && s[k] == c;
      if i <= k < j {
        assert s[i..j][k - i] == c;
      }
    }
  }

  lemma ContainsWitness(s: string, p: string, i: int)
    requires OccursAt(s, p, i)
    ensures Contains(s, p)
  {
  }

  /** A string contains each of its prefixes. */
  lemma ContainsPrefix(u: string, v: string)
    ensures Contains(u + v, u)
  {
    assert OccursAt(u + v, u, 0);
  }

  /** A string containing s contains everything s contains. */
  lemma ContainsTransitive(u: string, s: string, p: string)
    requires Contains(u, s) && Contains(s, p)
    ensures Contains(u, p)
  {
    var i :| 0 <= i <= |u| && OccursAt(u, s, i);
    var j :| 0 <= j <= |s| && OccursAt(s, p, j);
    assert forall k :: 0 <= k < |p| ==> u[i + j + k] == u[i..i + |s|][j + k] == s[j + k] == p[k];
    assert u[i + j..i + j + |p|] == p;
    assert OccursAt(u, p, i + j);
  }

  /** A string containing p contains p's first character. */
  lemma {:induction false} ContainsFirstChar(s: string, p: string)
    requires p != [] && Contains(s, p)
    ensures p[0] in s
  {
    var i :| 0 <= i <= |s| && OccursAt(s, p, i);
    assert s[i] == p[0];
  }

  /** Python's `p in s` for a one-character p is character membership. */
  lemma ContainsChar(s: string, c: char)
    ensures Contains(s, [c]) <==> c in s
  {
    if c in s {
      var i :| 0 <= i < |s| && s[i] == c;
      assert OccursAt(s, [c], i);
    }
    if Contains(s, [c]) {
      var i :| 0 <= i <= |s| && OccursAt(s, [c], i);
      assert s[i..i + 1][0] == s[i];
    }
  }

  /** Removing a string that does not occur changes nothing. */
  lemma {:induction false} RemoveAllAbsent(s: string, p: string)
    requires p != [] && p[0] !in s
    ensures RemoveAll(s, p) == s
    decreases |s|
  {
    if |s| >= |p| {
      assert s[..|p|][0] == s[0];
      RemoveAllAbsent(s[1..], p);
    }
  }

  /** Removing p from a string that starts with a character other than p's first keeps that character. */
  lemma RemoveAllKeepsHead(c: char, s: string, p: string)
    requires p != [] && c != p[0]
    ensures RemoveAll([c] + s, p) == [c] + RemoveAll(s, p)
  {
    var u := [c] + s;
    if |u| >= |p| {
      assert u[..|p|][0] == c;
      assert u[1..] == s;
    } else {
      RemoveAllShort(s, p);
    }
  }

  lemma RemoveAllShort(s: string, p: string)
    requires p != [] && |s| < |p|
    ensures RemoveAll(s, p) == s
  {
  }

  /** Removing a string that does not occur changes nothing. */
  lemma {:induction false} RemoveAllNotContained(s: string, p: string)
    requires p != [] && !Contains(s, p)
    ensures RemoveAll(s, p) == s
    decreases |s|
  {
    if |s| >= |p| {
      assert !OccursAt(s, p, 0);
      forall i | 0 <= i <= |s| - 1
        ensures !OccursAt(s[1..], p, i)
      {
        if OccursAt(s[1..], p, i) {
          assert s[1..][i..i + |p|] == s[i + 1..i + 1 + |p|];
          assert OccursAt(s, p, i + 1);
        }
      }
      RemoveAllNotContained(s[1..], p);
    }
  }

  /**
   * A character c that p does not contain splits the removal: no occurrence of p
   * can run across c.
   */
  lemma {:induction false} RemoveAllSplit(a: string, c: char, b: string, p: string)
    requires p != [] && c !in p
    ensures RemoveAll(a + [c] + b, p) == RemoveAll(a, p) + [c] + RemoveAll(b, p)
    decreases |a|
  {
    var s := a + [c] + b;
    if |s| < |p| {
      RemoveAllShort(b, p);
    } else if a == [] {
      assert s == [c] + b;
      RemoveAllKeepsHead(c, b, p);
    } else if s[..|p|] == p {
      assert s[|a|] == c;
      assert |a| >= |p|;
      assert a[..|p|] == p;
      assert s[|p|..] == a[|p|..] + [c] + b;
      RemoveAllSplit(a[|p|..], c, b, p);
    } else {
      assert s[1..] == a[1..] + [c] + b;
      RemoveAllSplit(a[1..], c, b, p);
      if |a| < |p| {
        RemoveAllShort(a, p);
        RemoveAllShort(a[1..], p);
        assert a == [a[0]] + a[1..];
      } else {
        assert a[..|p|] == s[..|p|];
      }
    }
  }

  /** Removing p from a string that starts with p drops that occurrence. */
  lemma RemoveAllDropsHead(s: string, p: string)
    requires p != []
    ensures RemoveAll(p + s, p) == RemoveAll(s, p)
  {
    assert (p + s)[..|p|] == p;
    assert (p + s)[|p|..] == s;
  }

  /** Every element of the parts is a substring of the joined text. */
  lemma {:induction false} JoinContainsPart(parts: seq<string>, sep: string, k: int)
    requires 0 <= k < |parts|
    ensures Contains(Join(parts, sep), parts[k])
    decreases |parts|
  {
    if |parts| == 1 {
      assert OccursAt(Join(parts, sep), parts[0], 0);
    } else if k == 0 {
      assert OccursAt(Join(parts, sep), parts[0], 0);
    } else {
      JoinContainsPart(parts[1..], sep, k - 1);
      var rest := Join(parts[1..], sep);
      var j :| 0 <= j <= |rest| && OccursAt(rest, parts[k], j);
      var off := |parts[0] + sep|;
      assert Join(parts, sep) == (parts[0] + sep) + rest;
      assert Join(parts, sep)[off + j..off + j + |parts[k]|] == rest[j..j + |parts[k]|];
      assert OccursAt(Join(parts, sep), parts[k], off + j);
    }
  }

  /** Lower-casing distributes over concatenation. */
  lemma LowerConcat(a: string, b: string)
    ensures Lower(a + b) == Lower(a) + Lower(b)
  {
    assert forall i | 0 <= i < |a + b| :: Lower(a + b)[i] == (Lower(a) + Lower(b))[i];
  }

  /** A string without upper-case ASCII letters is its own lower-case form. */
  lemma LowerUnchanged(s: string)
    requires forall i | 0 <= i < |s| :: !('A' <= s[i] <= 'Z')
    ensures Lower(s) == s
  {
  }

  /** Lower-casing keeps the word characters and only them. */
  lemma LowerWordChar(c: char)
    ensures IsWordChar(LowerChar(c)) <==> IsWordChar(c)
    ensures IsSpace(LowerChar(c)) <==> IsSpace(c)
  {
  }

  /** Lower-casing commutes with taking a slice. */
  lemma LowerSlice(s: string, i: int, j: int)
    requires 0 <= i <= j <= |s|
    ensures Lower(s)[i..j] == Lower(s[i..j])
  {
  }
}
