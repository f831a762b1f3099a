/**
 * The budget ledger: one line per (user, month, year, category) with an
 * allocation and the month-to-date spend, the 50/30/20-derived allocation
 * of an income over the seven categories, the replacement of a month's
 * lines when a budget is confirmed, and the spend increment a receipt applies.
 */
module Budget {
  import opened Wrappers
  import opened Reference

  datatype BudgetLine = BudgetLine(user: string, month: int, year: int, category: Category,
                                   allocation: real, spent: real)

  /** The line belongs to `user`'s budget for `month`/`year`. */
  predicate InMonth(l: BudgetLine, user: string, month: int, year: int)
  {
    l.user == user && l.month == month && l.year == year
  }

  /** The line is the one a receipt in `category` for `month`/`year` updates. */
  predicate Matches(l: BudgetLine, user: string, month: int, year: int, category: Category)
  {
    InMonth(l, user, month, year) && l.category == category
  }

  predicate SameKey(a: BudgetLine, b: BudgetLine)
  {
    a.user == b.user && a.month == b.month && a.year == b.year && a.category == b.category
  }

  /** At most one line per (user, month, year, category). */
  predicate KeysUnique(b: seq<BudgetLine>)
  {
    forall i, j :: 0 <= i < j < |b| ==> !SameKey(b[i], b[j])
  }

  /** The share of income each category receives, in the order the lines are inserted. */
  const AllocationShares: seq<(Category, real)> := [
    (Groceries, 0.20), (Transport, 0.15), (Bills, 0.15), (EatingOut, 0.15),
    (Shopping, 0.10), (Entertainment, 0.05), (Savings, 0.20)
  ]

  /** The seven added lines a confirmed income produces, with nothing spent yet. */
  function MonthLines(user: string, month: int, year: int, income: real): seq<BudgetLine>
  {
    seq(|AllocationShares|, i requires 0 <= i < |AllocationShares| =>
      BudgetLine(user, month, year, AllocationShares[i].0, income * AllocationShares[i].1, 0.0))
  }

  function TotalAllocation(b: seq<BudgetLine>): real
  {
    if b == [] then 0.0 else b[0].allocation + TotalAllocation(b[1..])
  }

  function TotalSpent(b: seq<BudgetLine>): real
  {
    if b == [] then 0.0 else b[0].spent + TotalSpent(b[1..])
  }

  /** The seven lines belong to the month, start with nothing spent, and take
      the categories in the order Groceries, Transport, Bills, Eating Out,
      Shopping, Entertainment, Savings, so each category has exactly one line. */
  lemma MonthLinesShape(user: string, month: int, year: int, income: real)
    ensures var r := MonthLines(user, month, year, income);
      |r| == 7 &&
      (forall l :: l in r ==> InMonth(l, user, month, year) && l.spent == 0.0) &&
      [r[0].category, r[1].category, r[2].category, r[3].category, r[4].category, r[5].category, r[6].category]
        == [Groceries, Transport, Bills, EatingOut, Shopping, Entertainment, Savings] &&
      KeysUnique(r)
  {
  }

  /** The seven allocations add up to the whole income. */
  lemma {:induction false} MonthLinesTotal(user: string, month: int, year: int, income: real)
    ensures TotalAllocation(MonthLines(user, month, year, income)) == income
  {
    var r := MonthLines(user, month, year, income);
    var t := r;
    assert TotalAllocation(t) == income * 0.20 + TotalAllocation(t[1..]);
    t := t[1..];
    assert TotalAllocation(t) == income * 0.15 + TotalAllocation(t[1..]);
    t := t[1..];
    assert TotalAllocation(t) == income * 0.15 + TotalAllocation(t[1..]);
    t := t[1..];
    assert TotalAllocation(t) == income * 0.15 + TotalAllocation(t[1..]);
    t := t[1..];
    assert TotalAllocation(t) == income * 0.10 + TotalAllocation(t[1..]);
    t := t[1..];
    assert TotalAllocation(t) == income * 0.05 + TotalAllocation(t[1..]);
    t := t[1..];
    assert t[1..] == [];
    assert TotalAllocation(t) == income * 0.20;
  }

  /** An income of 3000 gives Groceries 600, Transport 450, Bills 450,
      Eating Out 450, Shopping 300, Entertainment 150 and Savings 600. */
  lemma Income3000Example(user: string, month: int, year: int)
    ensures var r := MonthLines(user, month, year, 3000.0);
      |r| == 7 &&
      r[0].category == Groceries && r[0].allocation == 600.0 &&
      r[1].category == Transport && r[1].allocation == 450.0 &&
      r[2].category == Bills && r[2].allocation == 450.0 &&
      r[3].category == EatingOut && r[3].allocation == 450.0 &&
      r[4].category == Shopping && r[4].allocation == 300.0 &&
      r[5].category == Entertainment && r[5].allocation == 150.0 &&
      r[6].category == Savings && r[6].allocation == 600.0
  {
  }

  /** The lines that are not `user`'s for `month`/`year`, in their order. */
  function KeepOthers(b: seq<BudgetLine>, user: string, month: int, year: int): (r: seq<BudgetLine>)
    ensures |r| <= |b|
    ensures forall l :: l in r <==> l in b && !InMonth(l, user, month, year)
  {
    if b == [] then []
    else if InMonth(b[0], user, month, year) then KeepOthers(b[1..], user, month, year)
    else [b[0]] + KeepOthers(b[1..], user, month, year)
  }

  /** The lines that are `user`'s for `month`/`year`, in their order. */
  function OnlyMonth(b: seq<BudgetLine>, user: string, month: int, year: int): (r: seq<BudgetLine>)
    ensures |r| <= |b|
    ensures forall l :: l in r <==> l in b && InMonth(l, user, month, year)
  {
    if b == [] then []
    else if InMonth(b[0], user, month, year) then [b[0]] + OnlyMonth(b[1..], user, month, year)
    else OnlyMonth(b[1..], user, month, year)
  }

  /** The ledger after confirming `income` for `user`'s `month`/`year`: that
      month's old lines deleted, the seven new lines appended. */
  function ReplaceMonth(b: seq<BudgetLine>, user: string, month: int, year: int, income: real): seq<BudgetLine>
  {
    KeepOthers(b, user, month, year) + MonthLines(user, month, year, income)
  }

  lemma {:induction false} KeepOthersAppend(a: seq<BudgetLine>, c: seq<BudgetLine>, user: string, month: int, year: int)
    ensures KeepOthers(a + c, user, month, year) == KeepOthers(a, user, month, year) + KeepOthers(c, user, month, year)
  {
    if a != [] {
      assert (a + c)[1..] == a[1..] + c;
      KeepOthersAppend(a[1..], c, user, month, year);
    } else {
      assert a + c == c;
    }
  }

  lemma {:induction false} OnlyMonthAppend(a: seq<BudgetLine>, c: seq<BudgetLine>, user: string, month: int, year: int)
    ensures OnlyMonth(a + c, user, month, year) == OnlyMonth(a, user, month, year) + OnlyMonth(c, user, month, year)
  {
    if a != [] {
      assert (a + c)[1..] == a[1..] + c;
      OnlyMonthAppend(a[1..], c, user, month, year);
    } else {
      assert a + c == c;
    }
  }

  /** Filtering keeps a sequence unchanged exactly when every element passes. */
  lemma {:induction false} KeepOthersOfOthers(b: seq<BudgetLine>, user: string, month: int, year: int)
    requires forall l :: l in b ==> !InMonth(l, user, month, year)
    ensures KeepOthers(b, user, month, year) == b
    ensures OnlyMonth(b, user, month, year) == []
  {
    if b != [] {
      KeepOthersOfOthers(b[1..], user, month, year);
    }
  }

  lemma {:induction false} OnlyMonthOfMonth(b: seq<BudgetLine>, user: string, month: int, year: int)
    requires forall l :: l in b ==> InMonth(l, user, month, year)
    ensures OnlyMonth(b, user, month, year) == b
    ensures KeepOthers(b, user, month, year) == []
  {
    if b != [] {
      OnlyMonthOfMonth(b[1..], user, month, year);
    }
  }

  /** Confirming leaves every other user's and every other month's lines as they were. */
  lemma ReplaceMonthKeepsOthers(b: seq<BudgetLine>, user: string, month: int, year: int, income: real)
    ensures KeepOthers(ReplaceMonth(b, user, month, year, income), user, month, year) == KeepOthers(b, user, month, year)
  {
    var kept := KeepOthers(b, user, month, year);
    var added := MonthLines(user, month, year, income);
    MonthLinesShape(user, month, year, income);
    KeepOthersAppend(kept, added, user, month, year);
    KeepOthersOfOthers(kept, user, month, year);
    OnlyMonthOfMonth(added, user, month, year);
  }

  /** After confirming, the month's lines are exactly the seven new ones. */
  lemma ReplaceMonthInstalls(b: seq<BudgetLine>, user: string, month: int, year: int, income: real)
    ensures OnlyMonth(ReplaceMonth(b, user, month, year, income), user, month, year) == MonthLines(user, month, year, income)
  {
    var kept := KeepOthers(b, user, month, year);
    var added := MonthLines(user, month, year, income);
    MonthLinesShape(user, month, year, income);
    OnlyMonthAppend(kept, added, user, month, year);
    KeepOthersOfOthers(kept, user, month, year);
    OnlyMonthOfMonth(added, user, month, year);
  }

  /** Confirming again for the same month replaces rather than duplicates: the
      result is what confirming the second income once would give. */
  lemma ReplaceMonthTwice(b: seq<BudgetLine>, user: string, month: int, year: int, first: real, second: real)
    ensures ReplaceMonth(ReplaceMonth(b, user, month, year, first), user, month, year, second)
         == ReplaceMonth(b, user, month, year, second)
  {
    ReplaceMonthKeepsOthers(b, user, month, year, first);
  }

  lemma {:induction false} KeepOthersUnique(b: seq<BudgetLine>, user: string, month: int, year: int)
    requires KeysUnique(b)
    ensures KeysUnique(KeepOthers(b, user, month, year))
  {
    if b != [] {
      var rest := KeepOthers(b[1..], user, month, year);
      assert KeysUnique(b[1..]) by {
        forall i, j | 0 <= i < j < |b[1..]| ensures !SameKey(b[1..][i], b[1..][j]) {
          assert b[1..][i] == b[i + 1] && b[1..][j] == b[j + 1];
        }
      }
      KeepOthersUnique(b[1..], user, month, year);
      if !InMonth(b[0], user, month, year) {
        forall l | l in rest ensures !SameKey(b[0], l) {
          var j :| 0 <= j < |b[1..]| && b[1..][j] == l;
          assert b[j + 1] == l;
        }
        ConsUnique(b[0], rest);
      }
    }
  }

  lemma ConsUnique(x: BudgetLine, r: seq<BudgetLine>)
    requires KeysUnique(r) && forall l :: l in r ==> !SameKey(x, l)
    ensures KeysUnique([x] + r)
  {
    var s := [x] + r;
    forall i, j | 0 <= i < j < |s| ensures !SameKey(s[i], s[j]) {
      assert s[j] == r[j - 1];
      if i > 0 { assert s[i] == r[i - 1]; }
    }
  }

  lemma AppendUnique(a: seq<BudgetLine>, c: seq<BudgetLine>)
    requires KeysUnique(a) && KeysUnique(c)
    requires forall x, y :: x in a && y in c ==> !SameKey(x, y)
    ensures KeysUnique(a + c)
  {
    var s := a + c;
    forall i, j | 0 <= i < j < |s| ensures !SameKey(s[i], s[j]) {
      if j < |a| {
        assert s[i] == a[i] && s[j] == a[j];
      } else if i < |a| {
        assert s[i] == a[i] && s[j] == c[j - |a|];
      } else {
        assert s[i] == c[i - |a|] && s[j] == c[j - |a|];
      }
    }
  }

  /** Confirming a budget keeps one line per (user, month, year, category). */
  lemma ReplaceMonthUnique(b: seq<BudgetLine>, user: string, month: int, year: int, income: real)
    requires KeysUnique(b)
    ensures KeysUnique(ReplaceMonth(b, user, month, year, income))
  {
    MonthLinesShape(user, month, year, income);
    KeepOthersUnique(b, user, month, year);
    AppendUnique(KeepOthers(b, user, month, year), MonthLines(user, month, year, income));
  }

  /** `UPDATE ... SET spent = spent + amount` on every line matching the receipt. */
  function AddSpent(b: seq<BudgetLine>, user: string, month: int, year: int, category: Category, amount: real)
    : (r: seq<BudgetLine>)
    ensures |r| == |b|
    ensures forall i :: 0 <= i < |b| && Matches(b[i], user, month, year, category) ==>
              r[i] == b[i].(spent := b[i].spent + amount)
    ensures forall i :: 0 <= i < |b| && !Matches(b[i], user, month, year, category) ==> r[i] == b[i]
  {
    if b == [] then []
    else
      var l := if Matches(b[0], user, month, year, category) then b[0].(spent := b[0].spent + amount) else b[0];
      [l] + AddSpent(b[1..], user, month, year, category, amount)
  }

  /** The increment changes no key, so it keeps the keys unique; with no
      matching line it changes nothing. */
  lemma AddSpentKeys(b: seq<BudgetLine>, user: string, month: int, year: int, category: Category, amount: real)
    ensures var r := AddSpent(b, user, month, year, category, amount);
      (KeysUnique(b) ==> KeysUnique(r)) &&
      ((forall l :: l in b ==> !Matches(l, user, month, year, category)) ==> r == b)
  {
    var r := AddSpent(b, user, month, year, category, amount);
    assert forall i :: 0 <= i < |b| ==> SameKey(r[i], b[i]);
  }

  /** The first line matching the query, as `fetchone()` returns it. */
  function FindLine(b: seq<BudgetLine>, user: string, month: int, year: int, category: Category): (r: Option<BudgetLine>)
    ensures r.None? <==> forall l :: l in b ==> !Matches(l, user, month, year, category)
    ensures r.Some? ==> r.value in b && Matches(r.value, user, month, year, category)
  {
    if b == [] then None
    else if Matches(b[0], user, month, year, category) then Some(b[0])
    else FindLine(b[1..], user, month, year, category)
  }

  /** With unique keys the matching line, if there is one, is the one found. */
  lemma FindLineUnique(b: seq<BudgetLine>, user: string, month: int, year: int, category: Category, i: nat)
    requires KeysUnique(b) && i < |b| && Matches(b[i], user, month, year, category)
    ensures FindLine(b, user, month, year, category) == Some(b[i])
  {
    var r := FindLine(b, user, month, year, category);
    var k :| 0 <= k < |b| && b[k] == r.value;
    assert SameKey(b[k], b[i]);
  }

  lemma AddSpentCons(b: seq<BudgetLine>, user: string, month: int, year: int, category: Category, amount: real)
    requires b != []
    ensures var l := if Matches(b[0], user, month, year, category) then b[0].(spent := b[0].spent + amount) else b[0];
      AddSpent(b, user, month, year, category, amount) == [l] + AddSpent(b[1..], user, month, year, category, amount)
  {
  }

  /** The alert that follows a receipt reads the line after its increment:
      the same line with `amount` added to what was spent. */
  lemma {:induction false} FindAfterAdd(b: seq<BudgetLine>, user: string, month: int, year: int, category: Category, amount: real)
    ensures var before := FindLine(b, user, month, year, category);
            var after := FindLine(AddSpent(b, user, month, year, category, amount), user, month, year, category);
            after.Some? == before.Some? &&
            (before.Some? ==> after.value == before.value.(spent := before.value.spent + amount))
  {
    if b != [] {
      var r := AddSpent(b, user, month, year, category, amount);
      var tail := AddSpent(b[1..], user, month, year, category, amount);
      var l := if Matches(b[0], user, month, year, category) then b[0].(spent := b[0].spent + amount) else b[0];
      AddSpentCons(b, user, month, year, category, amount);
      assert r[1..] == tail;
      if Matches(b[0], user, month, year, category) {
        assert FindLine(r, user, month, year, category) == Some(l);
        assert FindLine(b, user, month, year, category) == Some(b[0]);
      } else {
        assert FindLine(b, user, month, year, category) == FindLine(b[1..], user, month, year, category);
        assert FindLine(r, user, month, year, category) == FindLine(tail, user, month, year, category);
        FindAfterAdd(b[1..], user, month, year, category, amount);
      }
    }
  }
}
