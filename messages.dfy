/**
 * Outbound messages as values: what each reply says, without its wording.
 * Every message goes to the sender of the event that caused it.
 */
module Messages {
  import opened Reference

  /** The persona-styled line appended to a spend alert. Warnings are formatted
      with the category and percentage; the praise line is not. */
  datatype Flavour =
    | HardWarning(persona: string, category: Category, pct: int)
    | SoftWarning(persona: string, category: Category, pct: int)
    | Praise(persona: string)
    | NoFlavour

  /** One line of the SUMMARY reply. */
  datatype SummaryRow = SummaryRow(category: Category, spent: real, allocation: real, pct: int)

  datatype Message =
    | PersonaMenu                                   // the four-persona menu
    | PersonaActivated(persona: string)             // activation and income prompt
    | IncomeRetry                                   // "type number only"
    | BudgetPreview(income: real, essentials: real, wants: real, savings: real)
    | IncomeAgain                                   // "type your income again to restart"
    | BudgetReady                                   // setup complete
    | SetupFirst                                    // receipt before onboarding finished
    | BlurryReceipt                                 // no amount could be extracted
    | ReceiptError                                  // the amount could not be converted
    | Logged(amount: real, category: Category)      // no budget line for the category
    | SpendAlert(amount: real, category: Category, spent: real, allocation: real, pct: int, flavour: Flavour)
    | CourseTip(course: Course)
    | HelpText
    | NoBudget
    | Summary(month: int, year: int, rows: seq<SummaryRow>)
    | NoCourses
    | RecentCourses(courses: seq<Course>)
    | NotUnderstood
}
