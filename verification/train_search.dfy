/** The client-side train search: when the user presses Search, the cached train list is
    replaced by the trains whose origin and destination contain what was typed, compared
    without regard to case. An empty field places no constraint.

    The client reads a train's places from fields named `origin` and `destination`; the
    records here carry exactly the fields the client code reads. */
module TrainSearch {
  import opened Results
  import Seqs
  import Text

  /** A train as the client's list and search read it. */
  datatype Listing = Listing(
    id: int,
    name: string,
    origin: string,
    destination: string,
    departureTime: int,
    seats: int,
    price: int)

  /** Whether the typed text constrains nothing (`!field` on a string). */
  predicate Blank(field: string) {
    field == ""
  }

  /** One field of the search: blank, or contained in the train's value once both are lower-cased. */
  predicate FieldMatches(value: string, query: string) {
    Blank(query) || Text.Includes(Text.Lower(value), Text.Lower(query))
  }

  predicate Keeps(origin: string, destination: string, t: Listing) {
    FieldMatches(t.origin, origin) && FieldMatches(t.destination, destination)
  }

  /** The new cache contents: nothing when nothing was cached, else the kept trains in order. */
  function Search(cache: Option<seq<Listing>>, origin: string, destination: string): (r: seq<Listing>)
    ensures cache.None? ==> r == []
    ensures cache.Some? ==> Seqs.IsSubsequence(r, cache.value)
    ensures cache.Some? ==> forall t :: multiset(r)[t] == if Keeps(origin, destination, t) then multiset(cache.value)[t] else 0
    ensures cache.Some? ==> forall t :: t in r <==>
      && t in cache.value
      && (origin == "" || exists i :: 0 <= i <= |t.origin| && Text.Lower(origin) <= Text.Lower(t.origin)[i..])
      && (destination == "" || exists i :: 0 <= i <= |t.destination| && Text.Lower(destination) <= Text.Lower(t.destination)[i..])
  {
    match cache
    case None => []
    case Some(trains) =>
      var keep := (t: Listing) => Keeps(origin, destination, t);
      Seqs.FilterCounts(trains, keep);
      Seqs.Filter(trains, keep)
  }

  /** With both fields blank every cached train is kept. */
  lemma BlankKeepsAll(trains: seq<Listing>)
    ensures Search(Some(trains), "", "") == trains
  {
    Seqs.FilterKeepsAll(trains, (t: Listing) => Keeps("", "", t));
  }

  /** Searching the result of a search again with the same text changes nothing. */
  lemma SearchIdempotent(cache: Option<seq<Listing>>, origin: string, destination: string)
    ensures Search(Some(Search(cache, origin, destination)), origin, destination) == Search(cache, origin, destination)
  {
    if cache.Some? {
      Seqs.FilterIdempotent(cache.value, (t: Listing) => Keeps(origin, destination, t));
    }
  }

  /** The search ignores case in what was typed. */
  lemma SearchIgnoresCase(cache: Option<seq<Listing>>, origin: string, destination: string)
    ensures Search(cache, Text.Lower(origin), Text.Lower(destination)) == Search(cache, origin, destination)
  {
    Text.LowerIdempotent(origin);
    Text.LowerIdempotent(destination);
    if cache.Some? {
      var p := (t: Listing) => Keeps(Text.Lower(origin), Text.Lower(destination), t);
      var q := (t: Listing) => Keeps(origin, destination, t);
      assert forall t :: p(t) == q(t);
      Seqs.FilterSamePredicate(cache.value, p, q);
    }
  }

  /** Typing more into the origin field keeps an order-preserving part of what was kept before. */
  lemma TypingNarrows(trains: seq<Listing>, origin: string, more: string, destination: string)
    ensures Seqs.IsSubsequence(
      Search(Some(trains), origin + more, destination),
      Search(Some(trains), origin, destination))
  {
    var p := (t: Listing) => Keeps(origin + more, destination, t);
    var q := (t: Listing) => Keeps(origin, destination, t);
    forall t | t in trains && p(t) ensures q(t) {
      if !Blank(origin) {
        Text.LowerConcat(origin, more);
        assert |origin + more| > 0;
        Text.IncludesPrefix(Text.Lower(t.origin), Text.Lower(origin), Text.Lower(more));
      }
    }
    Seqs.FilterNarrows(trains, p, q);
  }
}
