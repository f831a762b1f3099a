/**
 * Read-only reference data compiled into the assistant: the seven budget
 * categories, the ordered merchant-keyword table, the persona tokens and the
 * shape of a course catalog entry.
 */
module Reference {

  datatype Category = Groceries | Transport | Bills | EatingOut | Shopping | Entertainment | Savings
  {
    /** The label stored in budget and transaction rows. */
    function Name(): string
    {
      match this
      case Groceries => "Groceries"
      case Transport => "Transport"
      case Bills => "Bills"
      case EatingOut => "Eating Out"
      case Shopping => "Shopping"
      case Entertainment => "Entertainment"
      case Savings => "Savings"
    }
  }

  /** The keyword table, in its declared order; the classifier tries it top to bottom. */
  const KeywordTable: seq<(Category, seq<string>)> := [
    (Transport, ["grab", "mrt", "lrt", "petrol", "shell", "petronas", "parking", "toll"]),
    (EatingOut, ["kfc", "mcd", "tealive", "starbucks", "restaurant", "cafe", "mamak"]),
    (Groceries, ["lotus", "tesco", "aeon", "jaya grocer", "99 speedmart"]),
    (Shopping, ["shopee", "lazada", "zalora", "uniqlo", "h&m"]),
    (Entertainment, ["cinema", "gsc", "tgv", "netflix", "spotify"]),
    (Bills, ["electricity", "water", "internet", "phone", "telco"])
  ]

  /** The category a merchant falls into when no keyword matches. */
  const FallbackCategory: Category := Shopping

  /** The persona menu's tokens: 1 Malaysian Mum, 2 Malaysian Boyfriend,
      3 Malaysian Girlfriend, 4 Abang Bomba. */
  predicate IsPersonaToken(t: string)
  {
    t == "1" || t == "2" || t == "3" || t == "4"
  }

  /** A row of the course catalog; every column is text. */
  datatype Course = Course(id: string, title: string, tags: string, diamonds: string,
                           androidUrl: string, iosUrl: string)
}
