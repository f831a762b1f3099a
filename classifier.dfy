/**
 * The merchant classifier: the first category, in the keyword table's
 * declared order, with a keyword that occurs in the merchant text.
 */
module Classifier {
  import opened Wrappers
  import opened Text
  import opened Reference

  /** Some keyword of `keywords` occurs in `merchant`. */
  predicate AnyKeyword(merchant: string, keywords: seq<string>)
  {
    exists k :: k in keywords && Contains(merchant, k)
  }

  /** The index of the first row, from row `i` on, that has a keyword occurring in `merchant`. */
  function FirstMatchFrom(table: seq<(Category, seq<string>)>, merchant: string, i: nat): (r: Option<nat>)
    requires i <= |table|
    ensures r.Some? ==> i <= r.value < |table| && AnyKeyword(merchant, table[r.value].1)
    ensures r.Some? ==> forall j :: i <= j < r.value ==> !AnyKeyword(merchant, table[j].1)
    ensures r.None? ==> forall j :: i <= j < |table| ==> !AnyKeyword(merchant, table[j].1)
    decreases |table| - i
  {
    if i == |table| then None
    else if AnyKeyword(merchant, table[i].1) then Some(i)
    else FirstMatchFrom(table, merchant, i + 1)
  }

  /** The category of a (lower-cased) merchant string. */
  function Classify(merchant: string): (c: Category)
    ensures (exists j :: 0 <= j < |KeywordTable| && KeywordTable[j].0 == c &&
               AnyKeyword(merchant, KeywordTable[j].1) &&
               forall k :: 0 <= k < j ==> !AnyKeyword(merchant, KeywordTable[k].1))
         || (c == FallbackCategory &&
               forall j :: 0 <= j < |KeywordTable| ==> !AnyKeyword(merchant, KeywordTable[j].1))
  {
    match FirstMatchFrom(KeywordTable, merchant, 0)
    case Some(j) => KeywordTable[j].0
    case None => FallbackCategory
  }

  /** Savings has no keywords and is not the fallback, so no merchant is classified as Savings. */
  lemma NeverSavings(merchant: string)
    ensures Classify(merchant) != Savings
  {
  }

  /** A merchant matching a keyword of an earlier row is never given a later row's category. */
  lemma EarlierRowWins(merchant: string, j: nat)
    requires j < |KeywordTable| && AnyKeyword(merchant, KeywordTable[j].1)
    ensures exists k :: 0 <= k <= j && Classify(merchant) == KeywordTable[k].0
  {
  }

  /** Every Transport keyword holds one of 'g', 'm', 'l', 'p', 'h', 't', none
      of which occurs in "kfc sunway". */
  lemma KfcLacksTransportKeyword(k: string)
    requires k in KeywordTable[0].1
    ensures !Contains("kfc sunway", k)
  {
    var c := if k == "grab" then 'g' else if k == "mrt" then 'm' else if k == "lrt" then 'l'
             else if k == "shell" then 'h' else if k == "toll" then 't' else 'p';
    ForeignCharNotContained("kfc sunway", k, c);
  }

  lemma KfcIsNotTransport()
    ensures !AnyKeyword("kfc sunway", KeywordTable[0].1)
  {
    forall k | k in KeywordTable[0].1 ensures !Contains("kfc sunway", k) {
      KfcLacksTransportKeyword(k);
    }
  }

  /** "kfc sunway" matches the Eating Out keyword "kfc" and no Transport keyword. */
  lemma KfcIsEatingOut()
    ensures Classify("kfc sunway") == EatingOut
  {
    var m := "kfc sunway";
    assert "kfc" <= m;
    assert "kfc" in KeywordTable[1].1;
    assert AnyKeyword(m, KeywordTable[1].1);
    KfcIsNotTransport();
    assert FirstMatchFrom(KeywordTable, m, 0) == FirstMatchFrom(KeywordTable, m, 1) == Some(1);
  }
}
