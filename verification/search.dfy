/** The search box of the transaction list (App.tsx, `filteredTransactions`):
    keep a transaction when the lower-cased term occurs in its lower-cased
    description or lower-cased category. */
module Search {
  import opened Types
  import opened Seqs
  import opened Text

  predicate MatchesSearch(term: string, t: Transaction)
  {
    Includes(Lower(t.description), Lower(term)) || Includes(Lower(t.category), Lower(term))
  }

  function SearchTransactions(ts: seq<Transaction>, term: string): seq<Transaction>
  {
    Filter(t => MatchesSearch(term, t), ts)
  }

  /** The lower-cased `term` occurs somewhere in the lower-cased `text`. */
  ghost predicate Mentions(text: string, term: string)
  {
    exists i :: OccursAt(Lower(text), Lower(term), i)
  }

  lemma MatchesSearchSpec(term: string, t: Transaction)
    ensures MatchesSearch(term, t) <==> Mentions(t.description, term) || Mentions(t.category, term)
  {
    IncludesSpec(Lower(t.description), Lower(term));
    IncludesSpec(Lower(t.category), Lower(term));
  }

  /** The result keeps the list order and holds each transaction exactly as
      often as the list does when its description or category mentions the
      term, case-insensitively, and not at all otherwise. */
  lemma SearchKeepsExactlyMatches(ts: seq<Transaction>, term: string)
    ensures IsSubseq(SearchTransactions(ts, term), ts)
    ensures forall t :: multiset(SearchTransactions(ts, term))[t]
              == if Mentions(t.description, term) || Mentions(t.category, term)
                 then multiset(ts)[t] else 0
  {
    FilterSpec(t => MatchesSearch(term, t), ts);
    forall t: Transaction
      ensures MatchesSearch(term, t) <==> Mentions(t.description, term) || Mentions(t.category, term)
    {
      MatchesSearchSpec(term, t);
    }
  }

  /** An empty search term shows the whole list, unchanged. */
  lemma EmptyTermKeepsAll(ts: seq<Transaction>)
    ensures SearchTransactions(ts, "") == ts
  {
    forall i | 0 <= i < |ts| ensures MatchesSearch("", ts[i]) {
      IncludesEmptyAndSelf(Lower(ts[i].description));
    }
    FilterAll(t => MatchesSearch("", t), ts);
  }

  /** The search ignores case: terms that lower-case alike give the same
      result, and a term equal to any casing of a transaction's description
      or category keeps that transaction. */
  lemma SearchIgnoresCase(ts: seq<Transaction>, a: string, b: string)
    requires Lower(a) == Lower(b)
    ensures SearchTransactions(ts, a) == SearchTransactions(ts, b)
    ensures forall t :: t in ts && (Lower(a) == Lower(t.description) || Lower(a) == Lower(t.category))
              ==> t in SearchTransactions(ts, a)
  {
    FilterCongruent(t => MatchesSearch(a, t), t => MatchesSearch(b, t), ts);
    FilterSpec(t => MatchesSearch(a, t), ts);
    forall t | t in ts && (Lower(a) == Lower(t.description) || Lower(a) == Lower(t.category))
      ensures t in SearchTransactions(ts, a)
    {
      IncludesEmptyAndSelf(Lower(t.description));
      IncludesEmptyAndSelf(Lower(t.category));
      assert MatchesSearch(a, t);
      assert multiset(SearchTransactions(ts, a))[t] == multiset(ts)[t];
    }
  }

  /** Lower-casing the term first does not change the result. */
  lemma SearchLowerTerm(ts: seq<Transaction>, term: string)
    ensures SearchTransactions(ts, Lower(term)) == SearchTransactions(ts, term)
  {
    LowerIdempotent(term);
    SearchIgnoresCase(ts, Lower(term), term);
  }
}
