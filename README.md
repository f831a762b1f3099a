# Receipt tracker: a Dafny model of the chat budget assistant

The system is a WhatsApp assistant for tracking spending. A new phone number is
onboarded in four steps:

1. It picks one of four personas.
2. It types a monthly income, and the assistant previews a 50/30/20 split.
3. It confirms with "OK". The assistant then replaces the month's budget with
   seven category lines: Groceries 20%, Transport 15%, Bills 15%, Eating Out 15%,
   Shopping 10%, Entertainment 5% and Savings 20%.
4. After that, every receipt photo is read by an extraction service.

For each receipt:
- the merchant is lower-cased and classified by an ordered keyword table;
- one transaction is logged and the amount is added to the matching budget line;
- the user gets a spend alert: the percentage of the allocation spent and a
  persona line (hard warning, soft warning, praise, or none);
- a learning course may be recommended, never one of the user's last five
  recommendations.

At the complete step the commands are HELP, SUMMARY, PERSONA (choose a persona
again) and COURSES.

The model keeps the four stores (users, budget lines, transactions, course history)
as the fields of one class, `Engine.Tracker`. Each handler is a method that takes
the event and an explicit month and year, and returns the replies it sends as
values of `Messages.Message`. The decisions the handlers make are functions,
each specified by its own contract or by lemmas about it:
- casing, substring tests, `replace` and `strip` (`Text`);
- the `float()` grammar (`Decimal`);
- income cleaning (`Income`);
- the classifier (`Classifier`);
- the ledger (`Budget`);
- percentages, tiers, alerts and the summary (`Reports`);
- the history window and course choice (`Courses`).

`Walkthrough` takes a new number through onboarding and one receipt, proved
from those contracts alone.

Behaviours of the code that are easy to miss, kept by the model:
- A reply other than "OK" at the confirmation step only asks for the income
  again; the step stays at confirmation (`Engine.Tracker.ConfirmBudget`).
- Negative incomes and negative receipt amounts are accepted, because `float()`
  accepts a sign and nothing checks it (`Income.NegativeIncomeAccepted`).
- "RM" and "," are removed wherever they occur, not only as a prefix
  (`Income.CleanIncome`).
- A JSON boolean amount is logged as an expense of 1 or 0, because `float()`
  accepts booleans (`Engine.AmountValue`).

## Model

| member | source | states |
|---|---|---|
| Classifier.FirstMatchFrom | app.py:352-354 | the index found is the first row, from the start index on, with a keyword occurring in the merchant; None exactly when no later row matches |
| Classifier.Classify | app.py:351-355 | the category is that of the first table row (in declared order) with a keyword that is a substring of the merchant, or Shopping when no row matches |
| Classifier.NeverSavings | app.py:83-90 | no merchant is ever classified as Savings |
| Classifier.EarlierRowWins | app.py:351-355 | a merchant matching row j gets the category of row j or of an earlier row |
| Classifier.KfcIsEatingOut | app.py:83-90 | "kfc sunway" is Eating Out: it matches "kfc" and no Transport keyword |
| Text.Upper | app.py:208 | same length; each ASCII lower-case letter becomes its upper-case letter (code point minus 32), U+017F becomes "S", U+0131 becomes "I", every other character is kept; no ASCII lower-case letter remains |
| Text.Lower | app.py:317 | same length; each ASCII upper-case letter becomes its lower-case letter (code point plus 32), the Kelvin sign becomes "k", every other character is kept; no ASCII upper-case letter remains |
| Text.ContainsIffOccurs | app.py:353 | `kw in s` holds exactly when kw occurs at some index of s |
| Text.RemoveAll | app.py:252 | `replace(pat, "")` never lengthens, only removes characters, leaves a text without the pattern unchanged, and removes every copy of a one-character pattern |
| Text.RemoveAllFront | app.py:252 | the scan from the left: an occurrence at the front is dropped whole, otherwise the first character is kept and the scan goes on from the next one |
| Text.RemoveAllOverlapExample | app.py:252 | removing "RM" from "RRM" leaves "R" |
| Text.RemoveAllAppend | app.py:252 | removing a pattern from x + y removes it from x and from y separately, when no partial copy of the pattern ends x |
| Text.RemoveAllOccurrence | app.py:252 | in x + pat + y, with x free of the pattern and of partial copies at its end, the copy after x is removed and y is processed as if alone |
| Text.RemoveAllKeeps | app.py:252 | a character not in the pattern survives the removal |
| Text.Strip | app.py:252 | the result is the slice of the input between white-space-only edges, with no white space at either end |
| Decimal.ParseDecimal | app.py:252 | an accepted numeral is non-empty and made of digits, signs and a point; a negative value needs a leading minus |
| Decimal.ParseNumeral | app.py:252 | every well-formed numeral (an optional sign, digits, an optional point and digits, at least one digit) is accepted, worth its digits plus its fraction, negated after a minus |
| Decimal.WellFormedAccepted | app.py:252 | a text that is a well-formed numeral is accepted with that numeral's value |
| Decimal.ParsedIsNumeral | app.py:252 | every accepted text is a well-formed numeral, and the value is the one that numeral denotes |
| Decimal.RenderThenParse | app.py:252 | the decimal rendering of any whole number parses back to that number |
| Decimal.RenderNegativeThenParse | app.py:252 | a minus followed by a rendering parses to the negated number |
| Decimal.ExcludedForms | app.py:252 | exponents, inf, nan and underscores are refused by the modelled grammar |
| Decimal.AcceptedFraction | app.py:319 | "23.50" is 23.5 |
| Decimal.AcceptedBarePoint | app.py:319 | ".5" is 0.5 and "7." is 7 |
| Decimal.RejectedBare | app.py:252 | ".", "" and "-" are not numbers |
| Income.IncomeWithPrefix | app.py:252 | "RM" followed by a whole number is that income |
| Income.PlainIncome | app.py:252 | a whole number with no "RM" is that income |
| Income.RemovedAnywhere | app.py:252 | "RM" after any text without an "R" is removed: the cleaned text is the same as without it |
| Income.IncomeTrailingRM | app.py:252 | a whole number followed by "RM" is that income |
| Income.IncomeLeadingSpace | app.py:252 | white space, "RM" and a whole number is that income |
| Income.DoubledRRejected | app.py:252 | "RRM" before a whole number leaves an "R" behind, and the text is not an income |
| Income.CleanIncome | app.py:252 | the cleaned text holds no comma, is no longer than the input, and has no white space at either end |
| Income.ParseIncome | app.py:250-252 | a text is an income exactly when its cleaned form is a well-formed numeral, and the income is that numeral's value; an accepted text holds only numeral characters, white space, "R", "M" and "," |
| Income.IncomeWithSeparators | app.py:252 | "RM", comma-separated groups of digits and an optional point and fraction read as the groups' digits joined plus the fraction (so "RM1,000,000" is 1000000 and "RM3,000.50" is 3000.5) |
| Income.NegativeIncomeAccepted | app.py:252 | a negative whole number is accepted as an income |
| Income.StrayCharRejected | app.py:250-252 | any text holding a character that is neither numeral, white space, "R", "M" nor "," is not an income |
| Engine.Preview | app.py:260-262 | the preview shows half, 30% and 20% of the income, and the three add up to the income |
| Engine.OkInAnyCase | app.py:275 | "OK", "ok" and "Ok" all confirm |
| Engine.StepAfterText | app.py:207-225 | a text moves the step forward by at most one, except PERSONA at the complete step, which alone goes back to persona selection; confirmation is left only by OK and never back to the income step; persona and income steps advance exactly on a valid token or a parseable income |
| Engine.Registered | app.py:189-205 | after the lookup the sender has a record: the old one if it existed, a fresh persona-step record otherwise, other records untouched |
| Engine.CommandReply | app.py:216-225 | HELP, SUMMARY, PERSONA and COURSES each get their own reply kind (the summary and course views for the user's month and window) and exactly every other command gets the not-understood reply |
| Engine.AmountValue | app.py:319 | a number is kept, true is 1 and false is 0, null, arrays and objects are refused, and an accepted string is a well-formed numeral after stripping, worth that numeral's value |
| Engine.AmountTextNumeral | app.py:319 | a string that is a well-formed numeral up to surrounding white space converts to that numeral's value |
| Engine.ReadReceipt | app.py:312-319 | a falsy extraction, an object without an amount, or a string or array without "amount" is unreadable; a non-zero number or true, a string or array holding "amount", a non-string merchant and an amount that does not convert raise; otherwise the amount, the lower-cased merchant and its category (never Savings) |
| Engine.KfcReceipt | app.py:317-318 | a receipt from "KFC Sunway" is logged under the merchant "kfc sunway" as Eating Out |
| Engine.Tracker.constructor | app.py:92-143 | the four stores start empty |
| Engine.Tracker.GetUser | app.py:189-205 | creates the record on first contact and returns it; nothing else changes |
| Engine.Tracker.SelectPersona | app.py:227-241 | at the persona step, a token "1".."4" exactly as typed sets the persona and moves to the income step; anything else re-sends the menu and changes nothing; the new record, replies and step are the ones AfterPersona, PersonaReplies and StepAfterText give |
| Engine.Tracker.EnterIncome | app.py:250-272 | a parseable income is stored, previewed, and the step becomes confirmation; otherwise a retry prompt and no change; the new record, replies and step are the ones AfterIncome, IncomeReplies and StepAfterText give |
| Engine.Tracker.ConfirmBudget | app.py:274-279 | OK in any case replaces the month's lines from the stored income and completes onboarding; anything else only asks again and changes no state; the new step is the one StepAfterText gives |
| Engine.Tracker.SetupBudget | app.py:281-303 | the ledger becomes the other users' and months' lines followed by the seven allocation lines; the step becomes complete; keys stay unique |
| Engine.Tracker.StartPersonaChange | app.py:446-452 | only the step changes, back to persona; income and every budget line are kept |
| Engine.Tracker.RecommendCourse | app.py:386-403 | the first eligible course in catalog order is appended to the history and offered, or nothing changes; every window stays duplicate-free |
| Engine.Tracker.HandleReceipt | app.py:305-335 | before onboarding is complete: the setup prompt and the menu, and no write; an unreadable or unconvertible receipt writes nothing; otherwise the logging effect |
| Engine.Tracker.LogExpense | app.py:322-332 | exactly one transaction (lower-cased merchant, confidence 0.9) is appended, spend is added to the matching lines, the alert reads the line after the increment, then the course step |
| Engine.Tracker.RecordSpend | app.py:322-331 | the ledger half of a receipt: one transaction row appended, the spend added to every matching line, and the alert is the one AlertFor gives for the line read back after the increment; users and history unchanged |
| Engine.Tracker.HandleText | app.py:207-225 | text goes to the step's handler first; at the complete step HELP, SUMMARY and COURSES change nothing, PERSONA changes only the step, other text changes nothing; the new step is the one StepAfterText gives |
| Engine.Tracker.HandleCommand | app.py:216-225 | at the complete step PERSONA only moves the sender back to persona selection; every command's reply is the one CommandReply gives, no store other than the users changes, and the new step is the one StepAfterText gives |
| Engine.Tracker.HandleInbound | app.py:178-182 | media goes to the receipt path at every step, non-empty text to the text handler, and an empty event changes nothing beyond creating the record |
| Budget.MonthLinesShape | app.py:283-297 | seven lines, in the order Groceries, Transport, Bills, Eating Out, Shopping, Entertainment, Savings, all for the month with nothing spent and distinct keys |
| Budget.MonthLinesTotal | app.py:283-288 | the seven allocations add up to the income |
| Budget.Income3000Example | app.py:283-288 | an income of 3000 allocates 600 to Groceries, 450 to Transport and 600 to Savings |
| Budget.KeepOthers | app.py:292-293 | the month's delete keeps exactly the lines of other users or months |
| Budget.OnlyMonth | app.py:410-412 | exactly the lines of the user's month |
| Budget.ReplaceMonthKeepsOthers | app.py:290-297 | lines of other users or months are untouched by a setup |
| Budget.ReplaceMonthInstalls | app.py:290-297 | after a setup the month's lines are exactly the seven allocation lines |
| Budget.ReplaceMonthTwice | app.py:290-297 | a second setup gives the same ledger as a single setup with the second income: no duplicates |
| Budget.ReplaceMonthUnique | app.py:290-297 | a setup keeps (user, month, year, category) keys unique |
| Budget.AddSpent | app.py:326-327 | every matching line has the amount added to its spend, every other line is unchanged |
| Budget.AddSpentKeys | app.py:326-327 | the increment keeps keys unique, and with no matching line changes nothing |
| Budget.FindLine | app.py:361-363 | None exactly when no line matches; otherwise a matching line of the ledger |
| Budget.FindLineUnique | app.py:361-363 | with unique keys the line found is the matching line |
| Budget.FindAfterAdd | app.py:326-327 | the line read back after an increment is the line before it with the amount added |
| Reports.Trunc | app.py:371 | `int()` truncates toward zero |
| Reports.Pct | app.py:371 | 0 when nothing is allocated; otherwise the truncated percentage, within one of spent/allocation*100 |
| Reports.TierOf | app.py:377-382 | hard exactly from 100, soft exactly from 80 to 99, praise exactly under 70, none exactly from 70 to 79 |
| Reports.EffectivePersona | app.py:373 | the user's persona when it is one of "1".."4", otherwise persona "1" |
| Reports.FlavourFor | app.py:377-382 | a hard warning exactly from 100 percent, a soft warning exactly from 80 to 99, praise exactly under 70, nothing from 70 to 79; every line is in the given persona, and warnings carry the category and percentage |
| Reports.AlertFor | app.py:357-384 | no matching line gives the plain logged message; otherwise the alert shows the amount, the line's spend, allocation and percentage, a persona line whose kind is the percentage's tier, in the user's effective persona, with warnings naming the category and percentage |
| Reports.AlertExamples | app.py:371-382 | allocation 100, purchase 50: prior 45 gives 95 and a soft warning, 60 gives 110 and a hard warning, 0 gives 50 and praise, 25 gives 75 and no persona line |
| Reports.SummaryView | app.py:405-423 | "no budget" exactly when the month has no lines; otherwise one row per line in ledger order with its spend, allocation and percentage |
| Reports.SummaryAfterSetup | app.py:405-423 | right after a setup the summary lists the seven categories in order at 0 spent and 0 percent |
| Courses.RecentIds | app.py:390-391 | at most n ids, each one recommended to that user |
| Courses.RecentIdsNewestFirst | app.py:390 | the last n recommendations are the user's recommended ids read backwards from the newest, as many as there are up to n |
| Courses.Window | app.py:390 | the window is the user's five most recent ids (fewer if there are fewer), newest first |
| Courses.RecentIdsPrefix | app.py:390 | a shorter limit gives a prefix of the longer answer |
| Courses.WindowAfterAppend | app.py:395 | a new recommendation heads the window, followed by the four before it |
| Courses.WindowOtherUser | app.py:395 | a recommendation leaves other users' windows unchanged |
| Courses.AppendKeepsWindowsDistinct | app.py:386-403 | appending an id outside the user's window keeps every user's window duplicate-free |
| Courses.Tag | app.py:387 | each category's tag is its label in lower case: "groceries", "transport", "bills", "eating out", "shopping", "entertainment", "savings" |
| Courses.FirstEligibleFrom | app.py:393-394 | the index found is eligible (not in the window, tags contain the category) and every earlier one is not; None when none is |
| Courses.FirstEligibleIs | app.py:393-402 | an eligible course preceded only by ineligible ones is the one chosen |
| Courses.Listed | app.py:440-443 | exactly the catalog courses whose ids are in the window |
| Courses.ListedAppend | app.py:440-443 | the listing keeps catalog order: a split catalog lists its first part then its second, and one course is listed exactly when its id is in the window |
| Courses.CoursesView | app.py:429-444 | "no courses" exactly when the window is empty; otherwise exactly the catalog courses in the window, in catalog order |
| Walkthrough.Onboard | app.py:207-303 | persona 2, then RM3000, then OK take a new number to the complete step with the seven lines of a 3000 income and no spend |
| Walkthrough.OnboardThenLogReceipt | app.py:178-182 | persona 2, income RM3000, OK, then a 12.00 KFC receipt give an alert of 12 of 450 at 2 percent with persona 2's praise |
| Walkthrough.EatingOutLineAfterReceipt | app.py:326-327 | in a fresh RM3000 month a 12.00 Eating Out receipt leaves that line at 12 spent of 450 |
| Walkthrough.PraiseAtTwoPercent | app.py:371-382 | 12 of 450 is 2 percent, in the praise tier |

## Left out

- The Flask webhook plumbing, form parsing and the blanket exception handler (app.py:169-187). What remains is the choice between media, non-empty text and an empty event. The sender is taken as already normalised: the `whatsapp:` prefix removal is not modelled. A media event whose URL is absent is not distinguished from one with a URL.
- Sending messages through Twilio (app.py:454-462). Each handler returns its replies as values. The wording, the `.2f` formatting and the emoji are not modelled.
- The receipt extraction service and its JSON decoding (app.py:337-349). Its decoded result is a parameter of `HandleInbound`, described by `Engine.Extraction`: an object with its amount and merchant, or another JSON value described only by what the pipeline does with it.
- SQLite connections, the schema and commits (app.py:92-148). The tables are in-memory collections, and each handler's effect is atomic.
- The course catalog file and its fallback row (app.py:150-167). The catalog is a constructor parameter, and every course has every field as text. A short CSV row gives None fields. A None title, diamonds count or URL would only print as "None" in a reply, whose wording is not modelled. A None tags field raises only when the loop reaches that course with its id outside the user's five-id window, because the id test comes first; this happens after the receipt is committed and adds the error reply. That path is not modelled.
- The clock and time zone (`datetime.now`, pytz, `strftime`). The month and year are parameters. The history is ordered by insertion; the assistant orders it by a one-second `recommended_at` timestamp.
- `random.choice` among persona templates. Each persona has one template per tier, and the model records the tier and persona.
- IEEE floating point. Money is exact `real`.
- Decimal.ParseDecimal: Python's `float()` also accepts exponents, `inf`/`nan`, underscores between digits and non-ASCII digits. The modelled grammar refuses them. It is an optional sign, digits, and an optional point followed by digits, with at least one digit.
- Text.Upper: only the characters whose upper case is one ASCII character are mapped: ASCII letters, U+017F to S and U+0131 to I. No multi-character upper-case form can spell OK, HELP, SUMMARY, PERSONA or COURSES, so those comparisons are exact.
- Text.Lower: only ASCII letters and the Kelvin sign are mapped. Other characters are kept unchanged in the stored merchant text. This cannot change a category, because every keyword is ASCII and none ends in "i". The only ASCII letter a multi-character lower-case form adds is the "i" from U+0130.
- Text.IsSpace: the `str.isspace` set is listed explicitly.
- Concurrency between requests.
