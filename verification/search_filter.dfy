/** The search box the admin pages share: a list is narrowed to the entries one of whose two
    searched fields contains the term, both sides lower-cased, in the list's own order. */
module SearchFilter {
  import Text
  import Seqs

  /** Either searched field contains the term, case ignored. */
  predicate Hit(fields: (string, string), term: string)
  {
    Text.IncludesIgnoringCase(fields.0, term) || Text.IncludesIgnoringCase(fields.1, term)
  }

  /** The callback handed to `filter`: `key` picks the two fields an entry is searched by. */
  function Keeps<T>(key: T -> (string, string), term: string): T -> bool
  {
    x => Hit(key(x), term)
  }

  function Search<T(==)>(xs: seq<T>, key: T -> (string, string), term: string): (r: seq<T>)
    ensures Seqs.IsSubsequence(r, xs)
    ensures forall i :: 0 <= i < |r| ==> Hit(key(r[i]), term)
  {
    Seqs.Filter(xs, Keeps(key, term))
  }

  /** An entry is in the result exactly when it is in the list and hits, and then as often as
      it occurs in the list; an entry that misses is dropped every time. */
  lemma SearchExactly<T>(xs: seq<T>, key: T -> (string, string), term: string, x: T)
    ensures x in Search(xs, key, term) <==> x in xs && Hit(key(x), term)
    ensures multiset(Search(xs, key, term))[x] == if Hit(key(x), term) then multiset(xs)[x] else 0
  {
    Seqs.FilterMembership(xs, Keeps(key, term), x);
    Seqs.FilterMultiplicity(xs, Keeps(key, term), x);
  }

  /** The empty term keeps the whole list. */
  lemma SearchEmptyTerm<T>(xs: seq<T>, key: T -> (string, string))
    ensures Search(xs, key, "") == xs
  {
    forall i | 0 <= i < |xs| ensures Keeps(key, "")(xs[i]) {
      Text.IncludesEmptyTerm(key(xs[i]).0);
    }
    Seqs.FilterAll(xs, Keeps(key, ""));
  }

  /** Terms that agree once lower-cased give the same result. */
  lemma SearchIgnoresTermCase<T>(xs: seq<T>, key: T -> (string, string), t1: string, t2: string)
    requires Text.Lower(t1) == Text.Lower(t2)
    ensures Search(xs, key, t1) == Search(xs, key, t2)
  {
    Seqs.FilterCongruent(xs, Keeps(key, t1), Keeps(key, t2));
  }

  /** The result is empty exactly when no entry hits. */
  lemma SearchEmpty<T>(xs: seq<T>, key: T -> (string, string), term: string)
    ensures Search(xs, key, term) == [] <==> forall i :: 0 <= i < |xs| ==> !Hit(key(xs[i]), term)
  {
    Seqs.FilterEmpty(xs, Keeps(key, term));
  }
}
