/**
 * The string operations the assistant applies to what users send:
 * upper- and lower-casing, substring containment (`kw in s`),
 * `s.replace(pat, "")` and `s.strip()`, with Python's semantics.
 */
module Text {

  predicate IsAsciiUpper(c: char) { 'A' <= c <= 'Z' }

  predicate IsAsciiLower(c: char) { 'a' <= c <= 'z' }

  /** `str.upper` on one character, for every character whose upper case is one
      ASCII character: the ASCII letters, LATIN SMALL LETTER LONG S and LATIN
      SMALL LETTER DOTLESS I. Other characters are kept as they are. */
  function UpperChar(c: char): char
  {
    if IsAsciiLower(c) then (c as int - 32) as char
    else if c == '\U{17F}' then 'S'
    else if c == '\U{131}' then 'I'
    else c
  }

  /** `str.lower` on one character, for every character whose lower case is one
      ASCII character: the ASCII letters and the KELVIN SIGN. */
  function LowerChar(c: char): char
  {
    if IsAsciiUpper(c) then (c as int + 32) as char
    else if c == '\U{212A}' then 'k'
    else c
  }

  function Upper(s: string): (r: string)
    ensures |r| == |s|
    ensures forall i :: 0 <= i < |r| ==> !IsAsciiLower(r[i])
    ensures forall i :: 0 <= i < |s| && IsAsciiLower(s[i]) ==> r[i] as int == s[i] as int - 32
    ensures forall i :: 0 <= i < |s| && s[i] == '\U{17F}' ==> r[i] == 'S'
    ensures forall i :: 0 <= i < |s| && s[i] == '\U{131}' ==> r[i] == 'I'
    ensures forall i :: 0 <= i < |s| && !IsAsciiLower(s[i]) && s[i] != '\U{17F}' && s[i] != '\U{131}' ==> r[i] == s[i]
  {
    seq(|s|, i requires 0 <= i < |s| => UpperChar(s[i]))
  }

  function Lower(s: string): (r: string)
    ensures |r| == |s|
    ensures forall i :: 0 <= i < |r| ==> !IsAsciiUpper(r[i])
    ensures forall i :: 0 <= i < |s| && IsAsciiUpper(s[i]) ==> r[i] as int == s[i] as int + 32
    ensures forall i :: 0 <= i < |s| && s[i] == '\U{212A}' ==> r[i] == 'k'
    ensures forall i :: 0 <= i < |s| && !IsAsciiUpper(s[i]) && s[i] != '\U{212A}' ==> r[i] == s[i]
  {
    seq(|s|, i requires 0 <= i < |s| => LowerChar(s[i]))
  }

  /** `pat` occurs in `s` starting at index `i`. */
  predicate OccursAt(s: string, pat: string, i: nat)
  {
    i + |pat| <= |s| && s[i..i + |pat|] == pat
  }

  /** Python's `pat in s`: `pat` is a prefix of some suffix of `s`. */
  predicate Contains(s: string, pat: string)
    decreases |s|
  {
    pat <= s || (s != [] && Contains(s[1..], pat))
  }

  /** Containment means an occurrence at some index, and conversely. */
  lemma {:induction false} ContainsIffOccurs(s: string, pat: string)
    ensures Contains(s, pat) <==> exists i: nat :: OccursAt(s, pat, i)
    decreases |s|
  {
    if pat <= s {
      assert s[0..|pat|] == pat;
      assert OccursAt(s, pat, 0);
    } else if s == [] {
    } else {
      ContainsIffOccurs(s[1..], pat);
      forall i: nat | 0 < i ensures OccursAt(s, pat, i) <==> OccursAt(s[1..], pat, i - 1) {
        if i + |pat| <= |s| {
          assert s[1..][i - 1..i - 1 + |pat|] == s[i..i + |pat|];
        }
      }
      if Contains(s[1..], pat) {
        var i: nat :| OccursAt(s[1..], pat, i);
        assert OccursAt(s, pat, i + 1);
      } else {
        assert !OccursAt(s, pat, 0) by {
          if |pat| <= |s| { assert s[0..|pat|] == s[..|pat|]; }
        }
      }
    }
  }

  /** A pattern holding a character that `s` lacks does not occur in `s`. */
  lemma ForeignCharNotContained(s: string, pat: string, c: char)
    requires c in pat && c !in s
    ensures !Contains(s, pat)
  {
    ContainsIffOccurs(s, pat);
    var j :| 0 <= j < |pat| && pat[j] == c;
    forall i: nat ensures !OccursAt(s, pat, i) {
      if i + |pat| <= |s| {
        assert s[i..i + |pat|][j] == s[i + j] != c;
      }
    }
  }

  /** Python's `s.replace(pat, "")`: a single left-to-right pass that drops
      every non-overlapping occurrence of `pat`. */
  function RemoveAll(s: string, pat: string): (r: string)
    requires pat != []
    ensures |r| <= |s|
    ensures multiset(r) <= multiset(s)
    ensures !Contains(s, pat) ==> r == s
    ensures |pat| == 1 ==> pat[0] !in r
    decreases |s|
  {
    if s == [] then []
    else if pat <= s then
      assert s == s[..|pat|] + s[|pat|..];
      RemoveAll(s[|pat|..], pat)
    else
      assert s == [s[0]] + s[1..];
      [s[0]] + RemoveAll(s[1..], pat)
  }

  /** The left-to-right scan, one step at a time: an occurrence at the front
      is dropped whole, and otherwise the first character is kept and the
      scan goes on from the next one. With the empty text giving the empty
      text, these steps fix the result for every input. */
  lemma RemoveAllFront(c: char, s: string, pat: string)
    requires pat != []
    ensures pat <= [c] + s ==> RemoveAll([c] + s, pat) == RemoveAll(([c] + s)[|pat|..], pat)
    ensures !(pat <= [c] + s) ==> RemoveAll([c] + s, pat) == [c] + RemoveAll(s, pat)
  {
    assert ([c] + s)[0] == c && ([c] + s)[1..] == s;
  }

  /** A partial pattern before an occurrence is kept: "RRM" loses only its
      last two characters. */
  lemma RemoveAllOverlapExample()
    ensures RemoveAll("RRM", "RM") == "R"
  {
    RemoveAllFront('R', "RM", "RM");
    assert "RM" <= "RM" && "RM"[2..] == [];
  }

  /** Removing a one-character pattern distributes over concatenation. */
  lemma {:induction false} RemoveCharAppend(x: string, y: string, c: char)
    ensures RemoveAll(x + y, [c]) == RemoveAll(x, [c]) + RemoveAll(y, [c])
    decreases |x|
  {
    if x == [] {
      assert x + y == y;
    } else {
      assert (x + y)[1..] == x[1..] + y;
      assert [c] <= x + y <==> [c] <= x;
      RemoveCharAppend(x[1..], y, c);
    }
  }

  /** No proper prefix of `pat` ends `x`, so no occurrence of `pat` can
      straddle the end of `x` and whatever follows it. */
  predicate NoPartialAtEnd(x: string, pat: string)
  {
    forall k :: 0 < k < |pat| && k <= |x| ==> x[|x| - k..] != pat[..k]
  }

  /** An occurrence at the front of `x + y` lies within `x`. */
  lemma PrefixBeforeEnd(x: string, y: string, pat: string)
    requires x != [] && pat <= x + y && NoPartialAtEnd(x, pat)
    ensures pat <= x
  {
    ShortFront(x, y, pat);
    assert pat == (x + y)[..|pat|] == x[..|pat|];
  }

  /** When `x` is shorter than a pattern that starts `x + y`, all of `x` is a
      prefix of the pattern. */
  lemma ShortFront(x: string, y: string, pat: string)
    ensures pat <= x + y && |x| < |pat| ==> x[|x| - |x|..] == pat[..|x|]
  {
    if pat <= x + y && |x| < |pat| {
      assert pat[..|x|] == (x + y)[..|x|];
    }
  }

  /** Dropping a front part keeps the end free of partial occurrences. */
  lemma NoPartialAtEndDrop(x: string, pat: string, n: nat)
    requires NoPartialAtEnd(x, pat) && n <= |x|
    ensures NoPartialAtEnd(x[n..], pat)
  {
    var x' := x[n..];
    forall k | 0 < k < |pat| && k <= |x'| ensures x'[|x'| - k..] != pat[..k] {
      assert x'[|x'| - k..] == x[|x| - k..];
    }
  }

  /** A scan step that drops an occurrence at the front; `t` is the rest. */
  lemma RemoveAllDropFront(s: string, t: string, pat: string)
    requires pat != [] && s != [] && pat <= s && t == s[|pat|..]
    ensures RemoveAll(s, pat) == RemoveAll(t, pat)
  {
  }

  /** A scan step that keeps the first character; `t` is the rest. */
  lemma RemoveAllKeepFront(s: string, t: string, pat: string)
    requires pat != [] && s != [] && !(pat <= s) && t == s[1..]
    ensures RemoveAll(s, pat) == [s[0]] + RemoveAll(t, pat)
  {
  }

  /** The removal distributes over a split that cuts no occurrence; for "RM",
      over any split whose left part does not end in 'R'. */
  lemma {:induction false} RemoveAllAppend(x: string, y: string, pat: string)
    requires pat != [] && NoPartialAtEnd(x, pat)
    ensures RemoveAll(x + y, pat) == RemoveAll(x, pat) + RemoveAll(y, pat)
    decreases |x|, 1
  {
    if x == [] {
      assert x + y == y;
    } else if pat <= x + y {
      RemoveAllAppendMatch(x, y, pat);
    } else {
      RemoveAllAppendSkip(x, y, pat);
    }
  }

  /** The case of `RemoveAllAppend` where the scan drops an occurrence at the
      front, which then lies within `x`. */
  lemma {:induction false} RemoveAllAppendMatch(x: string, y: string, pat: string)
    requires pat != [] && x != [] && NoPartialAtEnd(x, pat) && pat <= x + y
    ensures RemoveAll(x + y, pat) == RemoveAll(x, pat) + RemoveAll(y, pat)
    decreases |x|, 0
  {
    PrefixBeforeEnd(x, y, pat);
    var x' := x[|pat|..];
    assert (x + y)[|pat|..] == x' + y;
    NoPartialAtEndDrop(x, pat, |pat|);
    RemoveAllAppend(x', y, pat);
    RemoveAllDropFront(x + y, x' + y, pat);
    RemoveAllDropFront(x, x', pat);
  }

  /** A prefix of `x` is a prefix of anything `x` starts. */
  lemma PrefixOfAppend(pat: string, x: string, y: string)
    ensures pat <= x ==> pat <= x + y
  {
    if pat <= x {
      assert (x + y)[..|pat|] == x[..|pat|];
    }
  }

  /** The shape of `x + y` once its first character is taken off. */
  lemma AppendTail(x: string, y: string)
    requires x != []
    ensures (x + y)[1..] == x[1..] + y && (x + y)[0] == x[0]
  {
  }

  /** The case of `RemoveAllAppend` where the scan keeps the first character. */
  lemma {:induction false} RemoveAllAppendSkip(x: string, y: string, pat: string)
    requires pat != [] && x != [] && NoPartialAtEnd(x, pat) && !(pat <= x + y)
    ensures RemoveAll(x + y, pat) == RemoveAll(x, pat) + RemoveAll(y, pat)
    decreases |x|, 0
  {
    var x' := x[1..];
    AppendTail(x, y);
    PrefixOfAppend(pat, x, y);
    NoPartialAtEndDrop(x, pat, 1);
    RemoveAllAppend(x', y, pat);
    RemoveAllKeepFront(x + y, x' + y, pat);
    RemoveAllKeepFront(x, x', pat);
    var rx, ry := RemoveAll(x', pat), RemoveAll(y, pat);
    assert [x[0]] + (rx + ry) == ([x[0]] + rx) + ry;
  }

  /** Of a text holding one occurrence after a part without the pattern, the
      removal keeps the part, drops the occurrence, and goes on with the rest. */
  lemma RemoveAllOccurrence(x: string, y: string, pat: string)
    requires pat != [] && !Contains(x, pat) && NoPartialAtEnd(x, pat)
    ensures RemoveAll(x + pat + y, pat) == x + RemoveAll(y, pat)
  {
    assert x + pat + y == x + (pat + y);
    RemoveAllAppend(x, pat + y, pat);
    assert pat <= pat + y;
    assert (pat + y)[|pat|..] == y;
  }

  /** A character that is not part of the pattern survives the removal. */
  lemma {:induction false} RemoveAllKeeps(s: string, pat: string, c: char)
    requires pat != [] && c in s && c !in pat
    ensures c in RemoveAll(s, pat)
    decreases |s|
  {
    var i :| 0 <= i < |s| && s[i] == c;
    if pat <= s {
      forall k | 0 <= k < |pat| ensures s[k] != c {
        assert s[k] == pat[k];
      }
      assert s[|pat|..][i - |pat|] == c;
      RemoveAllKeeps(s[|pat|..], pat, c);
    } else if i > 0 {
      assert s[1..][i - 1] == c;
      RemoveAllKeeps(s[1..], pat, c);
    }
  }

  /** The characters `str.isspace` accepts. */
  predicate IsSpace(c: char)
  {
    c == ' ' || c == '\t' || c == '\n' || c == '\r' || c == '\U{B}' || c == '\U{C}' ||
    ('\U{1C}' <= c <= '\U{1F}') || c == '\U{85}' || c == '\U{A0}' || c == '\U{1680}' ||
    ('\U{2000}' <= c <= '\U{200A}') || c == '\U{2028}' || c == '\U{2029}' ||
    c == '\U{202F}' || c == '\U{205F}' || c == '\U{3000}'
  }

  function TrimStart(s: string): (r: string)
    ensures |r| <= |s| && r == s[|s| - |r|..]
    ensures r == [] || !IsSpace(r[0])
    ensures forall i :: 0 <= i < |s| - |r| ==> IsSpace(s[i])
    decreases |s|
  {
    if s != [] && IsSpace(s[0]) then TrimStart(s[1..]) else s
  }

  function TrimEnd(s: string): (r: string)
    ensures |r| <= |s| && r == s[..|r|]
    ensures r == [] || !IsSpace(r[|r| - 1])
    ensures forall i :: |r| <= i < |s| ==> IsSpace(s[i])
    decreases |s|
  {
    if s != [] && IsSpace(s[|s| - 1]) then TrimEnd(s[..|s| - 1]) else s
  }

  /** Python's `s.strip()`: the longest slice of `s` with no white space at
      either end, reached by dropping only white space. */
  function Strip(s: string): (r: string)
    ensures |r| <= |s|
    ensures r == [] || (!IsSpace(r[0]) && !IsSpace(r[|r| - 1]))
    ensures exists i: nat :: OccursAt(s, r, i) &&
              (forall k :: 0 <= k < i ==> IsSpace(s[k])) &&
              (forall k :: i + |r| <= k < |s| ==> IsSpace(s[k]))
    ensures s == [] || (!IsSpace(s[0]) && !IsSpace(s[|s| - 1])) ==> r == s
  {
    var t := TrimStart(s);
    var r := TrimEnd(t);
    assert OccursAt(s, r, |s| - |t|);
    r
  }

  lemma TrimStartKeeps(s: string, c: char)
    requires c in s && !IsSpace(c)
    ensures c in TrimStart(s)
  {
    var t := TrimStart(s);
    var d := |s| - |t|;
    assert t == s[d..];
    var k :| 0 <= k < |s| && s[k] == c;
    assert !IsSpace(s[k]);
    assert d <= k;
    assert s[d..][k - d] == s[k];
  }

  lemma TrimEndKeeps(s: string, c: char)
    requires c in s && !IsSpace(c)
    ensures c in TrimEnd(s)
  {
    var t := TrimEnd(s);
    var k :| 0 <= k < |s| && s[k] == c;
    assert k < |t|;
    assert t[k] == c;
  }

  /** A character that is not white space survives stripping. */
  lemma StripKeeps(s: string, c: char)
    requires c in s && !IsSpace(c)
    ensures c in Strip(s)
  {
    TrimStartKeeps(s, c);
    TrimEndKeeps(TrimStart(s), c);
  }

  /** Stripping adds no character. */
  lemma StripAddsNothing(s: string, c: char)
    requires c !in s
    ensures c !in Strip(s)
  {
    var r := Strip(s);
    var i: nat :| OccursAt(s, r, i);
    forall k | 0 <= k < |r| ensures r[k] != c {
      assert r[k] == s[i..i + |r|][k] == s[i + k];
    }
  }

  /** A white-space character in front makes no difference to stripping. */
  lemma StripSpaceFront(c: char, s: string)
    requires IsSpace(c)
    ensures Strip([c] + s) == Strip(s)
  {
    var t := [c] + s;
    assert TrimStart(t) == TrimStart(s) by {
      assert t != [] && t[0] == c && t[1..] == s;
    }
    assert Strip(t) == TrimEnd(TrimStart(t));
    assert Strip(s) == TrimEnd(TrimStart(s));
  }
}
