/**
 * A new number goes through onboarding and then sends one receipt. The
 * contracts of the handlers are enough to say what the spend alert reports.
 */
module Walkthrough {
  import opened Wrappers
  import opened Decimal
  import opened Income
  import opened Reference
  import opened Budget
  import opened Messages
  import opened Reports
  import opened Engine

  /** Persona "2", an income of RM3000 and "OK" from a new number leave it at
      the complete step with the seven allocation lines of the month. */
  method Onboard(sender: string, month: int, year: int) returns (tracker: Tracker)
    ensures fresh(tracker) && tracker.Valid() && tracker.catalog == []
    ensures sender in tracker.users && tracker.users[sender] == User(Complete, Some("2"), Some(3000.0))
    ensures tracker.budget == MonthLines(sender, month, year, 3000.0)
  {
    tracker := new Tracker([]);
    var income := "RM" + NatToDigits(3000);
    IncomeWithPrefix(3000);
    assert IsPersonaToken("2");
    OkInAnyCase();

    var replies := tracker.HandleInbound(sender, Inbound("2", None), month, year, Falsy);
    assert tracker.users[sender] == User(IncomeStep, Some("2"), None);
    replies := tracker.HandleInbound(sender, Inbound(income, None), month, year, Falsy);
    assert tracker.users[sender] == User(BudgetConfirm, Some("2"), Some(3000.0));
    replies := tracker.HandleInbound(sender, Inbound("OK", None), month, year, Falsy);
    assert tracker.budget == KeepOthers([], sender, month, year) + MonthLines(sender, month, year, 3000.0);
  }

  /** In a fresh RM3000 month, a 12.00 Eating Out receipt leaves that line at
      12.00 spent of 450 allocated. */
  lemma EatingOutLineAfterReceipt(sender: string, month: int, year: int)
    ensures FindLine(AddSpent(MonthLines(sender, month, year, 3000.0), sender, month, year, EatingOut, 12.0),
                     sender, month, year, EatingOut)
            == Some(BudgetLine(sender, month, year, EatingOut, 450.0, 12.0))
  {
    var lines := MonthLines(sender, month, year, 3000.0);
    MonthLinesShape(sender, month, year, 3000.0);
    assert lines[3] == BudgetLine(sender, month, year, EatingOut, 450.0, 0.0);
    FindLineUnique(lines, sender, month, year, EatingOut, 3);
    FindAfterAdd(lines, sender, month, year, EatingOut, 12.0);
  }

  /** 12 of 450 is 2 percent, in the praise tier. */
  lemma PraiseAtTwoPercent(sender: string, month: int, year: int)
    ensures AlertFor(Some(BudgetLine(sender, month, year, EatingOut, 450.0, 12.0)), 12.0, EatingOut, Some("2"))
            == SpendAlert(12.0, EatingOut, 12.0, 450.0, 2, Praise("2"))
  {
    assert Pct(12.0, 450.0) == 2;
  }

  /** After that onboarding, a 12.00 receipt from "KFC Sunway" lands in the
      Eating Out line (450 allocated), which is then at 2 percent, so the
      alert carries persona 2's praise. */
  method OnboardThenLogReceipt(sender: string, month: int, year: int) returns (alert: Message)
    ensures alert == SpendAlert(12.0, EatingOut, 12.0, 450.0, 2, Praise("2"))
  {
    var tracker := Onboard(sender, month, year);
    var extracted := Object(Some(Number(12.0)), Some("KFC Sunway"));
    KfcReceipt();
    EatingOutLineAfterReceipt(sender, month, year);
    PraiseAtTwoPercent(sender, month, year);
    var replies := tracker.HandleInbound(sender, Inbound("", Some("receipt.jpg")), month, year, extracted);
    alert := replies[0];
  }
}
