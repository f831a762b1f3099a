/**
 * Reading the monthly income a user types during onboarding: every "RM" and
 * every "," is removed, the rest is stripped of white space and parsed as a
 * decimal numeral.
 */
module Income {
  import opened Wrappers
  import opened Text
  import opened Decimal

  /** The income text with every "RM" and "," removed, then stripped: a text
      without commas, no longer than the input, with no white space at either end. */
  function CleanIncome(text: string): (r: string)
    ensures |r| <= |text|
    ensures ',' !in r
    ensures r == [] || (!IsSpace(r[0]) && !IsSpace(r[|r| - 1]))
  {
    var t := RemoveAll(RemoveAll(text, "RM"), ",");
    StripAddsNothing(t, ',');
    Strip(t)
  }

  /** The characters an income text may hold: those of a numeral, white
      space, and the removed 'R', 'M' and ','. */
  predicate IsIncomeChar(c: char)
  {
    IsNumeralChar(c) || IsSpace(c) || c == 'R' || c == 'M' || c == ','
  }

  /** The text is a well-formed numeral. */
  ghost predicate IsNumeral(s: string)
  {
    exists sign, d, point, f :: WellFormed(sign, d, point, f) && s == Numeral(sign, d, point, f)
  }

  /** The text is a well-formed numeral worth `v`. */
  ghost predicate DenotesNumeral(s: string, v: real)
  {
    exists sign, d, point, f :: (WellFormed(sign, d, point, f) &&
      s == Numeral(sign, d, point, f) && v == NumeralValue(sign, d, f))
  }

  /** The income typed at the income step: the cleaned text read as a
      decimal numeral. A text is accepted exactly when its cleaned form is a
      well-formed numeral, and the income is that numeral's value; an
      accepted text holds only income characters. */
  function ParseIncome(text: string): (r: Option<real>)
    ensures r.Some? ==> forall k :: 0 <= k < |text| ==> IsIncomeChar(text[k])
    ensures r.Some? ==> DenotesNumeral(CleanIncome(text), r.value)
    ensures IsNumeral(CleanIncome(text)) ==> r.Some?
  {
    OnlyIncomeChars(text);
    WellFormedAccepted(CleanIncome(text));
    var r := ParseDecimal(CleanIncome(text));
    if r.Some? then ParsedIsNumeral(CleanIncome(text)); r else r
  }

  /** A character outside the income characters survives the cleaning and
      makes the numeral fail. */
  lemma StrayCharRejected(text: string, c: char)
    requires c in text && !IsIncomeChar(c)
    ensures ParseDecimal(CleanIncome(text)) == None
  {
    assert c !in "RM" && c !in ",";
    RemoveAllKeeps(text, "RM", c);
    RemoveAllKeeps(RemoveAll(text, "RM"), ",", c);
    StripKeeps(RemoveAll(RemoveAll(text, "RM"), ","), c);
    var cleaned := CleanIncome(text);
    var k :| 0 <= k < |cleaned| && cleaned[k] == c;
    assert !IsNumeralChar(cleaned[k]);
  }

  lemma OnlyIncomeChars(text: string)
    ensures ParseDecimal(CleanIncome(text)).Some? ==> forall k :: 0 <= k < |text| ==> IsIncomeChar(text[k])
  {
    forall k | 0 <= k < |text| && !IsIncomeChar(text[k])
      ensures ParseDecimal(CleanIncome(text)) == None
    {
      StrayCharRejected(text, text[k]);
    }
  }

  /** "RM" at the front of a text is removed before anything else is looked at. */
  lemma RemovePrefixRM(d: string)
    ensures RemoveAll("RM" + d, "RM") == RemoveAll(d, "RM")
  {
    assert "RM" <= "RM" + d;
    assert ("RM" + d)[2..] == d;
  }

  /** A non-empty numeral needs no cleaning. */
  lemma CleanNumeral(d: string)
    requires d != [] && forall i :: 0 <= i < |d| ==> IsNumeralChar(d[i])
    ensures CleanIncome(d) == d
  {
    assert 'R' !in d;
    ForeignCharNotContained(d, "RM", 'R');
    assert ',' !in d;
    ForeignCharNotContained(d, ",", ',');
    assert !IsSpace(d[0]) && !IsSpace(d[|d| - 1]);
  }

  /** A plain whole number is an income. */
  lemma PlainIncome(n: nat)
    ensures ParseIncome(NatToDigits(n)) == Some(n as real)
  {
    CleanNumeral(NatToDigits(n));
    RenderThenParse(n);
  }

  /** "RM" is removed wherever it stands, not only at the front: after any
      text without an 'R', dropping it changes nothing in the cleaned text. */
  lemma RemovedAnywhere(x: string, y: string)
    requires 'R' !in x
    ensures CleanIncome(x + "RM" + y) == CleanIncome(x + y)
  {
    ForeignCharNotContained(x, "RM", 'R');
    assert NoPartialAtEnd(x, "RM") by {
      forall k | 0 < k < |"RM"| && k <= |x| ensures x[|x| - k..] != "RM"[..k] {
        assert x[|x| - k..][0] == x[|x| - 1] != 'R';
      }
    }
    RemoveAllOccurrence(x, y, "RM");
    RemoveAllAppend(x, y, "RM");
  }

  /** A whole number followed by "RM" is that income. */
  lemma IncomeTrailingRM(n: nat)
    ensures ParseIncome(NatToDigits(n) + "RM") == Some(n as real)
  {
    var d := NatToDigits(n);
    assert CleanIncome(d + "RM") == CleanIncome(d) by {
      RemovedAnywhere(d, "");
      assert d + "RM" + "" == d + "RM" && d + "" == d;
    }
    PlainIncome(n);
  }

  /** A white-space character in front of a text with no 'R' and no comma is
      stripped away by the cleaning. */
  lemma CleanSpaceFront(c: char, x: string)
    requires IsSpace(c) && 'R' !in x && ',' !in x
    ensures CleanIncome([c] + x) == CleanIncome(x)
  {
    var t := [c] + x;
    assert 'R' !in t && ',' !in t;
    ForeignCharNotContained(t, "RM", 'R');
    ForeignCharNotContained(t, ",", ',');
    ForeignCharNotContained(x, "RM", 'R');
    ForeignCharNotContained(x, ",", ',');
    StripSpaceFront(c, x);
  }

  /** White space before "RM" and a whole number is stripped once "RM" is removed. */
  lemma IncomeLeadingSpace(c: char, n: nat)
    requires IsSpace(c)
    ensures ParseIncome([c] + "RM" + NatToDigits(n)) == Some(n as real)
  {
    var d := NatToDigits(n);
    assert CleanIncome([c] + "RM" + d) == CleanIncome([c] + d) by {
      RemovedAnywhere([c], d);
    }
    assert CleanIncome([c] + d) == CleanIncome(d) by {
      assert 'R' !in d && ',' !in d;
      CleanSpaceFront(c, d);
    }
    CleanNumeral(d);
    RenderThenParse(n);
  }

  /** Only the "RM" after a doubled 'R' is removed. */
  lemma RBeforeRM(d: string)
    requires 'R' !in d
    ensures RemoveAll("R" + "RM" + d, "RM") == ['R'] + d
  {
    var x := "RM" + d;
    assert "R" + "RM" + d == ['R'] + x;
    assert (['R'] + x)[1] == 'R';
    RemoveAllFront('R', x, "RM");
    RemovePrefixRM(d);
    ForeignCharNotContained(d, "RM", 'R');
  }

  /** The cleaning of a doubled 'R', "RM" and digits keeps one 'R' in front. */
  lemma CleanDoubledR(d: string)
    requires d != [] && AllDigits(d)
    ensures CleanIncome("R" + "RM" + d) == ['R'] + d
  {
    var t := ['R'] + d;
    assert RemoveAll("R" + "RM" + d, "RM") == t by {
      assert 'R' !in d;
      RBeforeRM(d);
    }
    assert RemoveAll(t, ",") == t by {
      assert ',' !in t;
      ForeignCharNotContained(t, ",", ',');
    }
    assert !IsSpace(t[0]) && !IsSpace(t[|t| - 1]);
  }

  /** A doubled 'R' before "RM" leaves one 'R' behind, and the income is refused. */
  lemma DoubledRRejected(n: nat)
    ensures ParseIncome("R" + "RM" + NatToDigits(n)) == None
  {
    var d := NatToDigits(n);
    CleanDoubledR(d);
    assert !IsNumeralChar((['R'] + d)[0]);
  }

  /** A whole number written with the "RM" prefix parses to that number. */
  lemma IncomeWithPrefix(n: nat)
    ensures ParseIncome("RM" + NatToDigits(n)) == Some(n as real)
  {
    var d := NatToDigits(n);
    RemovePrefixRM(d);
    CleanNumeral(d);
    RenderThenParse(n);
  }

  /** Digit groups written with thousands separators: "1", "000", "000" is "1,000,000". */
  function JoinGroups(groups: seq<string>): string
    requires |groups| >= 1
    decreases |groups|
  {
    if |groups| == 1 then groups[0] else groups[0] + "," + JoinGroups(groups[1..])
  }

  /** The same groups written without separators. */
  function ConcatGroups(groups: seq<string>): (r: string)
    ensures (forall i :: 0 <= i < |groups| ==> AllDigits(groups[i])) ==> AllDigits(r)
    decreases |groups|
  {
    if groups == [] then []
    else
      var r := groups[0] + ConcatGroups(groups[1..]);
      assert forall i :: 0 <= i < |groups| - 1 ==> groups[1..][i] == groups[i + 1];
      r
  }

  predicate DigitGroups(groups: seq<string>)
  {
    |groups| >= 1 && forall i :: 0 <= i < |groups| ==> AllDigits(groups[i])
  }

  /** The joined groups hold only digits and commas. */
  lemma {:induction false} GroupsChars(groups: seq<string>)
    requires DigitGroups(groups)
    ensures forall k :: 0 <= k < |JoinGroups(groups)| ==> IsDigit(JoinGroups(groups)[k]) || JoinGroups(groups)[k] == ','
    decreases |groups|
  {
    if |groups| > 1 {
      var g := groups[0];
      var rest := groups[1..];
      assert DigitGroups(rest) by {
        forall i | 0 <= i < |rest| ensures AllDigits(rest[i]) { assert rest[i] == groups[i + 1]; }
      }
      GroupsChars(rest);
      var jr := JoinGroups(rest);
      var j := JoinGroups(groups);
      assert j == g + ("," + jr);
      forall k | 0 <= k < |j| ensures IsDigit(j[k]) || j[k] == ',' {
        if k < |g| { assert j[k] == g[k]; }
        else if k > |g| { assert j[k] == jr[k - |g| - 1]; }
      }
    }
  }

  /** Removing the commas from the joined groups leaves their digits side by side. */
  lemma {:induction false} GroupsCommasRemoved(groups: seq<string>)
    requires DigitGroups(groups)
    ensures RemoveAll(JoinGroups(groups), ",") == ConcatGroups(groups)
    decreases |groups|
  {
    var g := groups[0];
    assert ',' !in g by { assert AllDigits(g); }
    if |groups| == 1 {
      assert RemoveAll(g, ",") == g by { ForeignCharNotContained(g, ",", ','); }
      assert ConcatGroups(groups) == g + ConcatGroups([]);
    } else {
      var rest := groups[1..];
      assert DigitGroups(rest) by {
        forall i | 0 <= i < |rest| ensures AllDigits(rest[i]) { assert rest[i] == groups[i + 1]; }
      }
      assert RemoveAll(JoinGroups(rest), ",") == ConcatGroups(rest) by { GroupsCommasRemoved(rest); }
      assert RemoveAll(JoinGroups(groups), ",") == g + RemoveAll(JoinGroups(rest), ",") by {
        assert JoinGroups(groups) == g + ("," + JoinGroups(rest));
        CommaBetweenJoined(g, JoinGroups(rest));
      }
    }
  }

  /** The comma after the first group is removed along with those after it. */
  lemma CommaBetweenJoined(g: string, jr: string)
    requires ',' !in g
    ensures RemoveAll(g + ("," + jr), ",") == g + RemoveAll(jr, ",")
  {
    ForeignCharNotContained(g, ",", ',');
    RemoveCharAppend(g, "," + jr, ',');
    RemoveCharAppend(",", jr, ',');
    assert RemoveAll(",", ",") == [] by {
      assert "," <= ",";
      assert ","[1..] == [];
    }
  }

  /** A text made of digits, commas and points. */
  predicate NumberText(x: string)
  {
    forall k :: 0 <= k < |x| ==> IsDigit(x[k]) || x[k] == ',' || x[k] == '.'
  }

  lemma NumberTextAppend(a: string, b: string)
    requires NumberText(a) && NumberText(b)
    ensures NumberText(a + b)
  {
    forall k | 0 <= k < |a + b| ensures IsDigit((a + b)[k]) || (a + b)[k] == ',' || (a + b)[k] == '.' {
      if k < |a| { assert (a + b)[k] == a[k]; } else { assert (a + b)[k] == b[k - |a|]; }
    }
  }

  /** A text made of digits, commas and points holds no 'R'. */
  lemma NoCurrencyLetter(x: string)
    requires NumberText(x)
    ensures RemoveAll("RM" + x, "RM") == x
  {
    RemovePrefixRM(x);
    assert 'R' !in x;
    ForeignCharNotContained(x, "RM", 'R');
  }

  /** The fraction part of a numeral: empty, or a point and digits. */
  lemma FractionText(point: bool, f: string)
    requires AllDigits(f)
    ensures var tail := if point then "." + f else "";
      NumberText(tail) && ',' !in tail
  {
  }

  /** A numeral without sign has no white space at its ends. */
  lemma UnsignedEnds(c: string, point: bool, f: string)
    requires AllDigits(c) && AllDigits(f) && (point || f == []) && |c| + |f| > 0
    ensures Numeral("", c, point, f) == c + (if point then "." + f else "")
    ensures Strip(Numeral("", c, point, f)) == Numeral("", c, point, f)
  {
    var tail := if point then "." + f else "";
    var n := Numeral("", c, point, f);
    assert n == c + tail by { assert "" + c == c; }
    assert !IsSpace(n[0]) && !IsSpace(n[|n| - 1]) by {
      assert n[0] == (if c != [] then c[0] else '.');
      assert n[|n| - 1] == (if tail != [] then tail[|tail| - 1] else c[|c| - 1]);
    }
  }

  /** The cleaning of "RM" + groups + an optional fraction leaves the bare numeral. */
  lemma CleanGroups(groups: seq<string>, point: bool, f: string)
    requires DigitGroups(groups) && AllDigits(f) && (point || f == []) && |ConcatGroups(groups)| + |f| > 0
    ensures CleanIncome("RM" + JoinGroups(groups) + (if point then "." + f else "")) ==
              Numeral("", ConcatGroups(groups), point, f)
  {
    var j := JoinGroups(groups);
    var tail := if point then "." + f else "";
    var c := ConcatGroups(groups);
    var x := j + tail;
    FractionText(point, f);
    assert "RM" + j + tail == "RM" + x;
    assert RemoveAll("RM" + x, "RM") == x by {
      GroupsChars(groups);
      assert NumberText(j);
      NumberTextAppend(j, tail);
      NoCurrencyLetter(x);
    }
    assert RemoveAll(x, ",") == c + tail by {
      GroupsCommasRemoved(groups);
      ForeignCharNotContained(tail, ",", ',');
      RemoveCharAppend(j, tail, ',');
    }
    UnsignedEnds(c, point, f);
  }

  /** Incomes with thousands separators and an optional fraction:
      "RM" + "3,000" + ".50" reads as 3000.5, "RM1,000,000" as 1000000. */
  lemma IncomeWithSeparators(groups: seq<string>, point: bool, f: string)
    requires DigitGroups(groups) && AllDigits(f) && (point || f == []) && |ConcatGroups(groups)| + |f| > 0
    ensures ParseIncome("RM" + JoinGroups(groups) + (if point then "." + f else "")) ==
              Some(NumeralValue("", ConcatGroups(groups), f))
  {
    GroupsCommasRemoved(groups);
    CleanGroups(groups, point, f);
    ParseNumeral("", ConcatGroups(groups), point, f);
  }

  /** A sign is accepted: "-" followed by a whole number is that number, negated. */
  lemma NegativeIncomeAccepted(n: nat)
    ensures ParseIncome("-" + NatToDigits(n)) == Some(-(n as real))
  {
    var d := "-" + NatToDigits(n);
    assert forall i :: 0 <= i < |d| ==> IsNumeralChar(d[i]);
    CleanNumeral(d);
    RenderNegativeThenParse(n);
  }
}
