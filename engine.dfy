/**
 * The conversation engine: a per-user onboarding state machine
 * (persona, income, budget_confirm, complete) over four stores (users,
 * budget lines, transactions, course history), the dispatch of inbound
 * events, and the receipt pipeline. The month and year that the assistant
 * reads from the clock, and the receipt extraction that the assistant asks an
 * external service for, are parameters.
 */
module Engine {
  import opened Wrappers
  import opened Text
  import opened Decimal
  import opened Income
  import opened Reference
  import opened Classifier
  import opened Budget
  import opened Messages
  import opened Reports
  import opened Courses

  datatype Step = PersonaStep | IncomeStep | BudgetConfirm | Complete

  /** A row of the users table; persona and income are empty until entered. */
  datatype User = User(step: Step, personaId: Option<string>, income: Option<real>)

  /** The row `get_user` inserts on first contact. */
  const NewUser: User := User(PersonaStep, None, None)

  /** What onboarding guarantees about a user: past persona selection there is
      a valid persona; at confirmation and after there is an income. */
  predicate UserOk(u: User)
  {
    (u.step != PersonaStep ==> u.personaId.Some? && IsPersonaToken(u.personaId.value)) &&
    (u.step == BudgetConfirm || u.step == Complete ==> u.income.Some?)
  }

  /** The users table once `sender` has a record: unchanged if it had one,
      with a new record added otherwise. */
  function Registered(users: map<string, User>, sender: string): (r: map<string, User>)
    ensures sender in r && r.Keys == users.Keys + {sender}
    ensures sender in users ==> r == users
    ensures sender !in users ==> r[sender] == NewUser && forall id :: id in users ==> r[id] == users[id]
  {
    if sender in users then users else users[sender := NewUser]
  }

  /** A logged receipt; the timestamp is kept as its month and year. */
  datatype Transaction = Transaction(user: string, month: int, year: int, amount: real, merchant: string,
                                     category: Category, confidence: real, imageUrl: string)

  /** The confidence recorded with every extracted receipt. */
  const ExtractionConfidence: real := 0.9

  /** The `amount` value of an extraction object: a JSON number, a JSON
      boolean, a JSON string, null, or an array or object. */
  datatype Amount = Number(value: real) | Flag(flag: bool) | AmountText(text: string) | Null | Composite

  /** The decoded reply of the extraction service (an empty object when the
      service fails):
      - an object, with its `amount` (None when the key is absent) and its
        `merchant` (a missing merchant is the empty string; None when the
        value is not a string);
      - a falsy value other than an object: null, 0, false, "" or [];
      - a non-zero number or true, on which the `in` test raises;
      - a non-empty string or array, described by whether "amount" is in it. */
  datatype Extraction =
    | Object(amount: Option<Amount>, merchant: Option<string>)
    | Falsy
    | Scalar
    | Sequence(holdsAmount: bool)

  /** An inbound event: the text body and the first media reference, if any. */
  datatype Inbound = Inbound(body: string, media: Option<string>)

  /* ---------- onboarding ---------- */

  /** The 50/30/20 preview; its three parts add up to the income. */
  function Preview(income: real): (m: Message)
    ensures m.BudgetPreview? && m.income == income
    ensures m.essentials + m.wants + m.savings == income
    ensures m.essentials == income * 0.5 && m.wants == income * 0.3 && m.savings == income * 0.2
  {
    BudgetPreview(income, income * 0.5, income * 0.3, income * 0.2)
  }

  /** The confirmation reply, compared upper-cased. */
  predicate IsOk(text: string)
  {
    Upper(text) == "OK"
  }

  /** The confirmation is case-insensitive. */
  lemma OkInAnyCase()
    ensures IsOk("OK") && IsOk("ok") && IsOk("Ok")
  {
    assert Upper("OK") == "OK";
  }

  function AfterPersona(u: User, text: string): User
  {
    if IsPersonaToken(text) then u.(personaId := Some(text), step := IncomeStep) else u
  }

  function PersonaReplies(text: string): seq<Message>
  {
    if IsPersonaToken(text) then [PersonaActivated(text)] else [PersonaMenu]
  }

  function AfterIncome(u: User, text: string): User
  {
    match ParseIncome(text)
    case Some(v) => u.(income := Some(v), step := BudgetConfirm)
    case None => u
  }

  function IncomeReplies(text: string): seq<Message>
  {
    match ParseIncome(text)
    case Some(v) => [Preview(v)]
    case None => [IncomeRetry]
  }

  function Rank(s: Step): nat
  {
    match s
    case PersonaStep => 0
    case IncomeStep => 1
    case BudgetConfirm => 2
    case Complete => 3
  }

  /** The step a text message leads to. Steps only advance one at a time,
      except PERSONA, which goes back to persona selection; a confirmation
      step is left only by OK, and never back to the income step. */
  function StepAfterText(step: Step, text: string): (s: Step)
    ensures Rank(s) == Rank(step) || Rank(s) == Rank(step) + 1 ||
            (step == Complete && s == PersonaStep && Upper(text) == "PERSONA")
    ensures step == BudgetConfirm ==> s != IncomeStep && (s == Complete <==> IsOk(text))
    ensures step == PersonaStep ==> (s == IncomeStep <==> IsPersonaToken(text))
    ensures step == IncomeStep ==> (s == BudgetConfirm <==> ParseIncome(text).Some?)
    ensures step == Complete ==> (s == PersonaStep <==> Upper(text) == "PERSONA")
  {
    match step
    case PersonaStep => if IsPersonaToken(text) then IncomeStep else PersonaStep
    case IncomeStep => if ParseIncome(text).Some? then BudgetConfirm else IncomeStep
    case BudgetConfirm => if IsOk(text) then Complete else BudgetConfirm
    case Complete => if Upper(text) == "PERSONA" then PersonaStep else Complete
  }

  /** The reply to a text at the complete step. */
  function CommandReply(command: string, catalog: seq<Course>, b: seq<BudgetLine>, h: seq<HistoryEntry>,
                        user: string, month: int, year: int): (m: Message)
    ensures m == HelpText <==> command == "HELP"
    ensures m == PersonaMenu <==> command == "PERSONA"
    ensures m.Summary? || m == NoBudget <==> command == "SUMMARY"
    ensures command == "SUMMARY" ==> m == SummaryView(b, user, month, year)
    ensures m.RecentCourses? || m == NoCourses <==> command == "COURSES"
    ensures command == "COURSES" ==> m == CoursesView(catalog, Window(h, user))
    ensures m == NotUnderstood <==> command !in {"HELP", "SUMMARY", "PERSONA", "COURSES"}
  {
    if command == "HELP" then HelpText
    else if command == "SUMMARY" then SummaryView(b, user, month, year)
    else if command == "PERSONA" then PersonaMenu
    else if command == "COURSES" then CoursesView(catalog, Window(h, user))
    else NotUnderstood
  }

  /* ---------- receipts ---------- */

  /** The outcome of reading an extraction: no amount to read, a read that
      raises before anything is written, or a parsed receipt. */
  datatype ReceiptRead = Unreadable | Fails | Parsed(amount: real, merchant: string, category: Category)

  /** `float(amount)`: a number is kept, a boolean is 1 or 0, a string is read
      after stripping as a well-formed decimal numeral, and null, arrays and
      objects are refused. */
  function AmountValue(a: Amount): (r: Option<real>)
    ensures a.Number? ==> r == Some(a.value)
    ensures a.Flag? ==> r == Some(if a.flag then 1.0 else 0.0)
    ensures a.Null? || a.Composite? ==> r == None
    ensures a.AmountText? && r.Some? ==>
      exists sign, d, point, f :: (WellFormed(sign, d, point, f) &&
        Strip(a.text) == Numeral(sign, d, point, f) && r.value == NumeralValue(sign, d, f))
  {
    match a
    case Number(v) => Some(v)
    case Flag(b) => Some(if b then 1.0 else 0.0)
    case AmountText(t) =>
      var r := ParseDecimal(Strip(t));
      if r.Some? then ParsedIsNumeral(Strip(t)); r else r
    case Null => None
    case Composite => None
  }

  /** A string amount that is a well-formed numeral up to surrounding white
      space converts to that numeral's value. */
  lemma AmountTextNumeral(t: string, sign: string, d: string, point: bool, f: string)
    requires WellFormed(sign, d, point, f) && Strip(t) == Numeral(sign, d, point, f)
    ensures AmountValue(AmountText(t)) == Some(NumeralValue(sign, d, f))
  {
    ParseNumeral(sign, d, point, f);
  }

  /** What the pipeline makes of an extraction before it writes anything. */
  function ReadReceipt(x: Extraction): (r: ReceiptRead)
    ensures r == Unreadable <==> x == Falsy || x == Sequence(false) || (x.Object? && x.amount.None?)
    ensures r == Fails <==>
      x == Scalar || x == Sequence(true) ||
      (x.Object? && x.amount.Some? && (x.merchant.None? || AmountValue(x.amount.value).None?))
    ensures r.Parsed? ==>
      x.Object? && x.amount.Some? && x.merchant.Some? &&
      Some(r.amount) == AmountValue(x.amount.value) &&
      r.merchant == Lower(x.merchant.value) &&
      r.category == Classify(r.merchant) && r.category != Savings
  {
    match x
    case Falsy => Unreadable
    case Scalar => Fails
    case Sequence(holdsAmount) => if holdsAmount then Fails else Unreadable
    case Object(amount, merchantText) =>
      if amount.None? then Unreadable
      else if merchantText.None? then Fails
      else
        var merchant := Lower(merchantText.value);
        var category := Classify(merchant);
        NeverSavings(merchant);
        match AmountValue(amount.value)
        case None => Fails
        case Some(v) => Parsed(v, merchant, category)
  }

  lemma LowerKfc()
    ensures Lower("KFC Sunway") == "kfc sunway"
  {
  }

  /** The merchant is lower-cased before it is classified, so "KFC Sunway"
      is Eating Out. */
  lemma KfcReceipt()
    ensures ReadReceipt(Object(Some(Number(12.0)), Some("KFC Sunway"))) == Parsed(12.0, "kfc sunway", EatingOut)
  {
    LowerKfc();
    KfcIsEatingOut();
  }

  /** The course step of a receipt: the first eligible course is recorded and
      offered, or nothing happens. */
  ghost predicate RecommendEffect(catalog: seq<Course>, user: string, category: Category,
                                  h0: seq<HistoryEntry>, h1: seq<HistoryEntry>, msgs: seq<Message>)
  {
    match FirstEligible(catalog, Window(h0, user), Tag(category))
    case None => h1 == h0 && msgs == []
    case Some(k) => h1 == h0 + [HistoryEntry(user, catalog[k].id)] && msgs == [CourseTip(catalog[k])]
  }

  /** The effect of a receipt image on the ledger and the replies, for a user
      whose record is `u`. */
  ghost predicate ReceiptEffect(catalog: seq<Course>, sender: string, u: User, imageUrl: string,
                                extracted: Extraction, month: int, year: int,
                                b0: seq<BudgetLine>, t0: seq<Transaction>, h0: seq<HistoryEntry>,
                                b1: seq<BudgetLine>, t1: seq<Transaction>, h1: seq<HistoryEntry>,
                                msgs: seq<Message>)
  {
    if u.step != Complete then
      msgs == [SetupFirst, PersonaMenu] && b1 == b0 && t1 == t0 && h1 == h0
    else
      match ReadReceipt(extracted)
      case Unreadable => msgs == [BlurryReceipt] && b1 == b0 && t1 == t0 && h1 == h0
      case Fails => msgs == [ReceiptError] && b1 == b0 && t1 == t0 && h1 == h0
      case Parsed(amount, merchant, category) =>
        t1 == t0 + [Transaction(sender, month, year, amount, merchant, category, ExtractionConfidence, imageUrl)] &&
        b1 == AddSpent(b0, sender, month, year, category, amount) &&
        |msgs| >= 1 &&
        msgs[0] == AlertFor(FindLine(b1, sender, month, year, category), amount, category, u.personaId) &&
        RecommendEffect(catalog, sender, category, h0, h1, msgs[1..])
  }

  /** The effect of a text message on the user records, the budget, the
      history and the replies. */
  ghost predicate TextEffect(catalog: seq<Course>, sender: string, text: string, month: int, year: int,
                             us0: map<string, User>, b0: seq<BudgetLine>, h0: seq<HistoryEntry>,
                             us1: map<string, User>, b1: seq<BudgetLine>, h1: seq<HistoryEntry>,
                             msgs: seq<Message>)
    requires sender in us0
  {
    var u := us0[sender];
    h1 == h0 &&
    match u.step
    case PersonaStep =>
      us1 == us0[sender := AfterPersona(u, text)] && b1 == b0 && msgs == PersonaReplies(text)
    case IncomeStep =>
      us1 == us0[sender := AfterIncome(u, text)] && b1 == b0 && msgs == IncomeReplies(text)
    case BudgetConfirm =>
      if IsOk(text) then
        u.income.Some? && us1 == us0[sender := u.(step := Complete)] &&
        b1 == ReplaceMonth(b0, sender, month, year, u.income.value) && msgs == [BudgetReady]
      else
        us1 == us0 && b1 == b0 && msgs == [IncomeAgain]
    case Complete =>
      b1 == b0 &&
      us1 == (if Upper(text) == "PERSONA" then us0[sender := u.(step := PersonaStep)] else us0) &&
      msgs == [CommandReply(Upper(text), catalog, b0, h0, sender, month, year)]
  }

  /* ---------- the stores and the handlers ---------- */

  class Tracker {
    const catalog: seq<Course>
    var users: map<string, User>
    var budget: seq<BudgetLine>
    var transactions: seq<Transaction>
    var history: seq<HistoryEntry>

    ghost predicate Valid()
      reads this
    {
      (forall id :: id in users ==> UserOk(users[id])) &&
      KeysUnique(budget) &&
      (forall u :: Distinct(Window(history, u)))
    }

    constructor (catalog: seq<Course>)
      ensures Valid()
      ensures this.catalog == catalog
      ensures users == map[] && budget == [] && transactions == [] && history == []
    {
      this.catalog := catalog;
      users := map[];
      budget := [];
      transactions := [];
      history := [];
    }

    /** Looks the sender up, creating the record on first contact. */
    method GetUser(sender: string) returns (u: User)
      requires Valid()
      modifies this
      ensures Valid()
      ensures users == Registered(old(users), sender)
      ensures u == users[sender]
      ensures budget == old(budget) && transactions == old(transactions) && history == old(history)
    {
      if sender !in users {
        users := users[sender := NewUser];
      }
      u := users[sender];
    }

    /** Persona selection: one of "1".."4", exactly as typed, records the persona
        and moves to the income step; anything else re-sends the menu. */
    method SelectPersona(sender: string, text: string) returns (msgs: seq<Message>)
      requires Valid() && sender in users && users[sender].step == PersonaStep
      modifies this
      ensures Valid()
      ensures IsPersonaToken(text) ==>
        users == old(users)[sender := old(users[sender]).(personaId := Some(text), step := IncomeStep)] &&
        msgs == [PersonaActivated(text)]
      ensures !IsPersonaToken(text) ==> users == old(users) && msgs == [PersonaMenu]
      ensures users == old(users)[sender := AfterPersona(old(users[sender]), text)] && msgs == PersonaReplies(text)
      ensures sender in users && users[sender].step == StepAfterText(old(users[sender]).step, text)
      ensures budget == old(budget) && transactions == old(transactions) && history == old(history)
    {
      var u := users[sender];
      assert UserOk(AfterPersona(u, text));
      users := users[sender := AfterPersona(u, text)];
      msgs := PersonaReplies(text);
      if !IsPersonaToken(text) {
        assert users == old(users);
      }
    }

    /** Income entry: a number after removing "RM" and "," and stripping is
        stored and previewed, and the step moves to confirmation; anything else
        asks again and changes nothing. */
    method EnterIncome(sender: string, text: string) returns (msgs: seq<Message>)
      requires Valid() && sender in users && users[sender].step == IncomeStep
      modifies this
      ensures Valid()
      ensures ParseIncome(text).Some? ==>
        var v := ParseIncome(text).value;
        users == old(users)[sender := old(users[sender]).(income := Some(v), step := BudgetConfirm)] &&
        msgs == [Preview(v)]
      ensures ParseIncome(text).None? ==> users == old(users) && msgs == [IncomeRetry]
      ensures users == old(users)[sender := AfterIncome(old(users[sender]), text)] && msgs == IncomeReplies(text)
      ensures sender in users && users[sender].step == StepAfterText(old(users[sender]).step, text)
      ensures budget == old(budget) && transactions == old(transactions) && history == old(history)
    {
      var u := users[sender];
      var parsed := ParseIncome(text);
      if parsed.Some? {
        var income := parsed.value;
        users := users[sender := u.(income := Some(income), step := BudgetConfirm)];
        msgs := [Preview(income)];
        assert AfterIncome(u, text) == users[sender] && IncomeReplies(text) == msgs;
      } else {
        msgs := [IncomeRetry];
        assert users == old(users)[sender := u];
        assert AfterIncome(u, text) == u && IncomeReplies(text) == msgs;
      }
    }

    /** Confirmation: "OK" in any case sets up the budget from the stored
        income; any other reply only asks for the income again, without
        changing the step. */
    method ConfirmBudget(sender: string, text: string, month: int, year: int) returns (msgs: seq<Message>)
      requires Valid() && sender in users && users[sender].step == BudgetConfirm
      modifies this
      ensures Valid()
      ensures IsOk(text) ==>
        users == old(users)[sender := old(users[sender]).(step := Complete)] &&
        budget == ReplaceMonth(old(budget), sender, month, year, old(users[sender]).income.value) &&
        msgs == [BudgetReady]
      ensures !IsOk(text) ==> users == old(users) && budget == old(budget) && msgs == [IncomeAgain]
      ensures sender in users && users[sender].step == StepAfterText(old(users[sender]).step, text)
      ensures transactions == old(transactions) && history == old(history)
    {
      if Upper(text) == "OK" {
        var u := users[sender];
        msgs := SetupBudget(sender, u.income.value, month, year);
      } else {
        msgs := [IncomeAgain];
      }
    }

    /** Deletes the sender's lines for the month, inserts the seven allocation
        lines one by one, and completes onboarding. */
    method SetupBudget(sender: string, income: real, month: int, year: int) returns (msgs: seq<Message>)
      requires Valid() && sender in users
      requires users[sender].step == BudgetConfirm && users[sender].income == Some(income)
      modifies this
      ensures Valid()
      ensures budget == ReplaceMonth(old(budget), sender, month, year, income)
      ensures users == old(users)[sender := old(users[sender]).(step := Complete)]
      ensures msgs == [BudgetReady]
      ensures transactions == old(transactions) && history == old(history)
    {
      budget := KeepOthers(budget, sender, month, year);
      ghost var kept := budget;
      ghost var lines := MonthLines(sender, month, year, income);
      for i := 0 to |AllocationShares|
        invariant budget == kept + lines[..i]
        invariant users == old(users) && transactions == old(transactions) && history == old(history)
      {
        var (category, share) := AllocationShares[i];
        var line := BudgetLine(sender, month, year, category, income * share, 0.0);
        assert line == lines[i];
        assert lines[..i + 1] == lines[..i] + [line];
        budget := budget + [line];
      }
      assert lines[..|AllocationShares|] == lines;
      users := users[sender := users[sender].(step := Complete)];
      ReplaceMonthUnique(old(budget), sender, month, year, income);
      msgs := [BudgetReady];
    }

    /** PERSONA: back to persona selection, keeping the income and every budget line. */
    method StartPersonaChange(sender: string) returns (msgs: seq<Message>)
      requires Valid() && sender in users
      modifies this
      ensures Valid()
      ensures users == old(users)[sender := old(users[sender]).(step := PersonaStep)]
      ensures msgs == [PersonaMenu]
      ensures budget == old(budget) && transactions == old(transactions) && history == old(history)
    {
      users := users[sender := users[sender].(step := PersonaStep)];
      msgs := [PersonaMenu];
    }

    /** Scans the catalog in order for the first course outside the sender's
        window whose tags contain the category; records and offers it. */
    method RecommendCourse(sender: string, category: Category) returns (msgs: seq<Message>)
      requires Valid()
      modifies this
      ensures Valid()
      ensures RecommendEffect(catalog, sender, category, old(history), history, msgs)
      ensures users == old(users) && budget == old(budget) && transactions == old(transactions)
    {
      var tag := Tag(category);
      var recent := Window(history, sender);
      var i := 0;
      while i < |catalog| && !(catalog[i].id !in recent && Contains(Lower(catalog[i].tags), tag))
        invariant 0 <= i <= |catalog|
        invariant forall j :: 0 <= j < i ==> !Eligible(catalog[j], recent, tag)
      {
        i := i + 1;
      }
      if i < |catalog| {
        var course := catalog[i];
        FirstEligibleIs(catalog, recent, tag, i);
        AppendKeepsWindowsDistinct(history, sender, course.id);
        history := history + [HistoryEntry(sender, course.id)];
        msgs := [CourseTip(course)];
      } else {
        NoneEligible(catalog, recent, tag);
        msgs := [];
      }
    }

    /** The receipt pipeline: only at the complete step; an extraction without
        an amount, or one whose reading raises, writes nothing;
        otherwise one transaction is logged, the matching line's spend is
        increased, and the alert and a course recommendation follow. */
    method HandleReceipt(sender: string, imageUrl: string, extracted: Extraction, month: int, year: int)
      returns (msgs: seq<Message>)
      requires Valid() && sender in users
      modifies this
      ensures Valid() && users == old(users)
      ensures ReceiptEffect(catalog, sender, old(users[sender]), imageUrl, extracted, month, year,
                            old(budget), old(transactions), old(history), budget, transactions, history, msgs)
    {
      var u := users[sender];
      if u.step != Complete {
        msgs := [SetupFirst, PersonaMenu];
        return;
      }
      var read := ReadReceipt(extracted);
      match read
      case Unreadable =>
        msgs := [BlurryReceipt];
      case Fails =>
        msgs := [ReceiptError];
      case Parsed(amount, merchant, category) =>
        msgs := LogExpense(sender, imageUrl, amount, merchant, category, month, year);
    }

    /** Logs one parsed receipt: the transaction row, the spend added to the
        matching budget line, the alert read back from that line, and the
        course recommendation. */
    method LogExpense(sender: string, imageUrl: string, amount: real, merchant: string, category: Category,
                      month: int, year: int) returns (msgs: seq<Message>)
      requires Valid() && sender in users
      modifies this
      ensures Valid() && users == old(users)
      ensures transactions == old(transactions) +
                [Transaction(sender, month, year, amount, merchant, category, ExtractionConfidence, imageUrl)]
      ensures budget == AddSpent(old(budget), sender, month, year, category, amount)
      ensures |msgs| >= 1
      ensures msgs[0] == AlertFor(FindLine(budget, sender, month, year, category), amount, category,
                                  users[sender].personaId)
      ensures RecommendEffect(catalog, sender, category, old(history), history, msgs[1..])
    {
      var alert := RecordSpend(sender, imageUrl, amount, merchant, category, month, year);
      var tips := RecommendCourse(sender, category);
      msgs := [alert] + tips;
      assert msgs[1..] == tips;
    }

    /** The ledger half of `LogExpense`: the transaction row, the spend added
        to the matching line, and the alert read back from that line. */
    method RecordSpend(sender: string, imageUrl: string, amount: real, merchant: string, category: Category,
                       month: int, year: int) returns (alert: Message)
      requires Valid() && sender in users
      modifies this
      ensures Valid() && users == old(users) && history == old(history)
      ensures transactions == old(transactions) +
                [Transaction(sender, month, year, amount, merchant, category, ExtractionConfidence, imageUrl)]
      ensures budget == AddSpent(old(budget), sender, month, year, category, amount)
      ensures alert == AlertFor(FindLine(budget, sender, month, year, category), amount, category,
                                users[sender].personaId)
    {
      transactions := transactions + [Transaction(sender, month, year, amount, merchant, category,
                                                  ExtractionConfidence, imageUrl)];
      AddSpentKeys(budget, sender, month, year, category, amount);
      budget := AddSpent(budget, sender, month, year, category, amount);
      alert := AlertFor(FindLine(budget, sender, month, year, category), amount, category,
                        users[sender].personaId);
    }

    /** A text message, routed by the step first and only at the complete step
        by the commands HELP, SUMMARY, PERSONA and COURSES (compared upper-cased). */
    method HandleText(sender: string, text: string, month: int, year: int) returns (msgs: seq<Message>)
      requires Valid() && sender in users
      modifies this
      ensures Valid() && sender in users
      ensures TextEffect(catalog, sender, text, month, year, old(users), old(budget), old(history),
                         users, budget, history, msgs)
      ensures users[sender].step == StepAfterText(old(users[sender]).step, text)
      ensures transactions == old(transactions)
    {
      var u := users[sender];
      match u.step
      case PersonaStep =>
        msgs := SelectPersona(sender, text);
      case IncomeStep =>
        msgs := EnterIncome(sender, text);
      case BudgetConfirm =>
        msgs := ConfirmBudget(sender, text, month, year);
      case Complete =>
        msgs := HandleCommand(sender, text, month, year);
    }

    /** A text at the complete step: PERSONA goes back to persona selection,
        and every other command is answered without changing any store. */
    method HandleCommand(sender: string, text: string, month: int, year: int) returns (msgs: seq<Message>)
      requires Valid() && sender in users && users[sender].step == Complete
      modifies this
      ensures Valid()
      ensures users == (if Upper(text) == "PERSONA" then old(users)[sender := old(users[sender]).(step := PersonaStep)]
                        else old(users))
      ensures msgs == [CommandReply(Upper(text), catalog, old(budget), old(history), sender, month, year)]
      ensures sender in users && users[sender].step == StepAfterText(old(users[sender]).step, text)
      ensures budget == old(budget) && transactions == old(transactions) && history == old(history)
    {
      var command := Upper(text);
      if command == "PERSONA" {
        msgs := StartPersonaChange(sender);
      } else {
        msgs := [CommandReply(command, catalog, budget, history, sender, month, year)];
      }
    }

    /** An inbound event: the sender's record is created if new; an event with
        media goes to the receipt pipeline whatever the step, a non-empty text
        to the text handler, and an empty event is ignored. */
    method HandleInbound(sender: string, event: Inbound, month: int, year: int, extracted: Extraction)
      returns (msgs: seq<Message>)
      requires Valid()
      modifies this
      ensures Valid() && sender in users
      ensures var us0 := Registered(old(users), sender);
              var u := us0[sender];
        if event.media.Some? then
          users == us0 &&
          ReceiptEffect(catalog, sender, u, event.media.value, extracted, month, year,
                        old(budget), old(transactions), old(history), budget, transactions, history, msgs)
        else if event.body != "" then
          transactions == old(transactions) &&
          TextEffect(catalog, sender, event.body, month, year, us0, old(budget), old(history),
                     users, budget, history, msgs)
        else
          users == us0 && budget == old(budget) && transactions == old(transactions) &&
          history == old(history) && msgs == []
    {
      var u := GetUser(sender);
      if event.media.Some? {
        msgs := HandleReceipt(sender, event.media.value, extracted, month, year);
      } else if event.body != "" {
        msgs := HandleText(sender, event.body, month, year);
      } else {
        msgs := [];
      }
    }
  }
}
