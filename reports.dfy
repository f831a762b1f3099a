/**
 * What the assistant reports about a budget: the percentage of an allocation
 * spent, the alert tier that percentage selects, the persona whose templates
 * are used, the spend alert sent after a receipt, and the SUMMARY reply.
 */
module Reports {
  import opened Wrappers
  import opened Reference
  import opened Budget
  import opened Messages

  /** Python's `int(x)` on a number: truncation toward zero. */
  function Trunc(x: real): (r: int)
    ensures x >= 0.0 ==> r >= 0 && r as real <= x < r as real + 1.0
    ensures x < 0.0 ==> r <= 0 && r as real - 1.0 < x <= r as real
  {
    if x >= 0.0 then x.Floor else -((-x).Floor)
  }

  /** The whole percentage of `allocation` that `spent` represents, 0 when
      there is nothing allocated. */
  function Pct(spent: real, allocation: real): (r: int)
    ensures allocation <= 0.0 ==> r == 0
    ensures allocation > 0.0 && spent >= 0.0 ==>
              r >= 0 && r as real <= spent / allocation * 100.0 < r as real + 1.0
    ensures allocation > 0.0 && spent < 0.0 ==>
              r <= 0 && r as real - 1.0 < spent / allocation * 100.0 <= r as real
  {
    if allocation > 0.0 then Trunc(spent / allocation * 100.0) else 0
  }

  datatype Tier = HardTier | SoftTier | PraiseTier | NoTier

  /** The alert tier, checked from the top: at or over the allocation, from
      80 percent, under 70 percent; 70 to 79 percent selects nothing. */
  function TierOf(pct: int): (t: Tier)
    ensures t == HardTier <==> pct >= 100
    ensures t == SoftTier <==> 80 <= pct < 100
    ensures t == PraiseTier <==> pct < 70
    ensures t == NoTier <==> 70 <= pct < 80
  {
    if pct >= 100 then HardTier
    else if pct >= 80 then SoftTier
    else if pct < 70 then PraiseTier
    else NoTier
  }

  /** The persona whose templates an alert uses: the user's own when it names a
      persona, the first persona when it is missing or unknown. */
  function EffectivePersona(personaId: Option<string>): (p: string)
    ensures IsPersonaToken(p)
    ensures personaId.Some? && IsPersonaToken(personaId.value) ==> p == personaId.value
    ensures personaId.None? || !IsPersonaToken(personaId.value) ==> p == "1"
  {
    if personaId.Some? && IsPersonaToken(personaId.value) then personaId.value else "1"
  }

  /** The persona line appended to a spend alert: a hard warning from 100
      percent, a soft warning from 80, praise under 70 and nothing from 70 to
      79. Warnings name the category and the percentage; every line is in the
      given persona's voice. */
  function FlavourFor(persona: string, category: Category, pct: int): (fl: Flavour)
    ensures fl.HardWarning? <==> pct >= 100
    ensures fl.SoftWarning? <==> 80 <= pct < 100
    ensures fl.Praise? <==> pct < 70
    ensures fl == NoFlavour <==> 70 <= pct < 80
    ensures fl != NoFlavour ==> fl.persona == persona
    ensures fl.HardWarning? || fl.SoftWarning? ==> fl.category == category && fl.pct == pct
  {
    match TierOf(pct)
    case HardTier => HardWarning(persona, category, pct)
    case SoftTier => SoftWarning(persona, category, pct)
    case PraiseTier => Praise(persona)
    case NoTier => NoFlavour
  }

  /** The reply to a logged receipt, given the budget line read after the
      increment (if the category has one). */
  function AlertFor(line: Option<BudgetLine>, amount: real, category: Category, personaId: Option<string>): (m: Message)
    ensures line.None? <==> m == Logged(amount, category)
    ensures line.Some? ==>
      m.SpendAlert? && m.amount == amount && m.category == category &&
      m.spent == line.value.spent && m.allocation == line.value.allocation &&
      m.pct == Pct(line.value.spent, line.value.allocation)
    ensures m.SpendAlert? ==>
      (m.flavour.HardWarning? <==> TierOf(m.pct) == HardTier) &&
      (m.flavour.SoftWarning? <==> TierOf(m.pct) == SoftTier) &&
      (m.flavour.Praise? <==> TierOf(m.pct) == PraiseTier) &&
      (m.flavour == NoFlavour <==> TierOf(m.pct) == NoTier)
    ensures m.SpendAlert? && m.flavour != NoFlavour ==> m.flavour.persona == EffectivePersona(personaId)
    ensures m.SpendAlert? && (m.flavour.HardWarning? || m.flavour.SoftWarning?) ==>
      m.flavour.category == category && m.flavour.pct == m.pct
  {
    match line
    case None => Logged(amount, category)
    case Some(l) =>
      var pct := Pct(l.spent, l.allocation);
      SpendAlert(amount, category, l.spent, l.allocation, pct,
                 FlavourFor(EffectivePersona(personaId), category, pct))
  }

  /** On a one-line budget the spend lands on that line and is read back. */
  lemma SpendOnOneLine(user: string, month: int, year: int, category: Category,
                       allocation: real, prior: real, amount: real)
    ensures var b := [BudgetLine(user, month, year, category, allocation, prior)];
      FindLine(AddSpent(b, user, month, year, category, amount), user, month, year, category)
        == Some(BudgetLine(user, month, year, category, allocation, prior + amount))
  {
    var b := [BudgetLine(user, month, year, category, allocation, prior)];
    assert AddSpent(b, user, month, year, category, amount)
      == [BudgetLine(user, month, year, category, allocation, prior + amount)];
  }

  /** A 50 purchase against an allocation of 100: prior spend 45 gives 95 percent
      and a soft warning, 60 gives 110 and a hard warning, 0 gives 50 and praise,
      25 gives 75 and no persona line. */
  lemma AlertExamples(user: string, month: int, year: int, persona: string)
    requires IsPersonaToken(persona)
    ensures var b := [BudgetLine(user, month, year, EatingOut, 100.0, 45.0)];
      AlertFor(FindLine(AddSpent(b, user, month, year, EatingOut, 50.0), user, month, year, EatingOut),
               50.0, EatingOut, Some(persona))
        == SpendAlert(50.0, EatingOut, 95.0, 100.0, 95, SoftWarning(persona, EatingOut, 95))
    ensures var b := [BudgetLine(user, month, year, EatingOut, 100.0, 60.0)];
      AlertFor(FindLine(AddSpent(b, user, month, year, EatingOut, 50.0), user, month, year, EatingOut),
               50.0, EatingOut, Some(persona))
        == SpendAlert(50.0, EatingOut, 110.0, 100.0, 110, HardWarning(persona, EatingOut, 110))
    ensures var b := [BudgetLine(user, month, year, EatingOut, 100.0, 0.0)];
      AlertFor(FindLine(AddSpent(b, user, month, year, EatingOut, 50.0), user, month, year, EatingOut),
               50.0, EatingOut, Some(persona))
        == SpendAlert(50.0, EatingOut, 50.0, 100.0, 50, Praise(persona))
    ensures var b := [BudgetLine(user, month, year, EatingOut, 100.0, 25.0)];
      AlertFor(FindLine(AddSpent(b, user, month, year, EatingOut, 50.0), user, month, year, EatingOut),
               50.0, EatingOut, Some(persona))
        == SpendAlert(50.0, EatingOut, 75.0, 100.0, 75, NoFlavour)
  {
    SpendOnOneLine(user, month, year, EatingOut, 100.0, 45.0, 50.0);
    SpendOnOneLine(user, month, year, EatingOut, 100.0, 60.0, 50.0);
    SpendOnOneLine(user, month, year, EatingOut, 100.0, 0.0, 50.0);
    SpendOnOneLine(user, month, year, EatingOut, 100.0, 25.0, 50.0);
    assert Pct(95.0, 100.0) == 95;
    assert Pct(110.0, 100.0) == 110;
    assert Pct(50.0, 100.0) == 50;
    assert Pct(75.0, 100.0) == 75;
  }

  /** The SUMMARY reply for `user`'s `month`/`year`: one row per line, in ledger order. */
  function SummaryView(b: seq<BudgetLine>, user: string, month: int, year: int): (m: Message)
    ensures m == NoBudget <==> OnlyMonth(b, user, month, year) == []
    ensures m != NoBudget ==>
      m.Summary? && m.month == month && m.year == year &&
      |m.rows| == |OnlyMonth(b, user, month, year)| &&
      forall i :: 0 <= i < |m.rows| ==>
        var l := OnlyMonth(b, user, month, year)[i];
        m.rows[i].category == l.category && m.rows[i].spent == l.spent &&
        m.rows[i].allocation == l.allocation && m.rows[i].pct == Pct(l.spent, l.allocation)
  {
    var lines := OnlyMonth(b, user, month, year);
    if lines == [] then NoBudget
    else Summary(month, year, seq(|lines|, i requires 0 <= i < |lines| =>
                   SummaryRow(lines[i].category, lines[i].spent, lines[i].allocation,
                              Pct(lines[i].spent, lines[i].allocation))))
  }

  /** Right after a budget is confirmed, SUMMARY lists the seven categories in
      order, each with nothing spent and at 0 percent. */
  lemma SummaryAfterSetup(b: seq<BudgetLine>, user: string, month: int, year: int, income: real)
    ensures var m := SummaryView(ReplaceMonth(b, user, month, year, income), user, month, year);
      m.Summary? && |m.rows| == 7 &&
      [m.rows[0].category, m.rows[1].category, m.rows[2].category, m.rows[3].category,
       m.rows[4].category, m.rows[5].category, m.rows[6].category]
        == [Groceries, Transport, Bills, EatingOut, Shopping, Entertainment, Savings] &&
      forall i :: 0 <= i < 7 ==> m.rows[i].spent == 0.0 && m.rows[i].pct == 0
  {
    ReplaceMonthInstalls(b, user, month, year, income);
    MonthLinesShape(user, month, year, income);
    var lines := MonthLines(user, month, year, income);
    assert lines[0] in lines;
  }
}
