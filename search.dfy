/**
 * `runSearch`: the query box filters the in-memory location list by
 * case-insensitive substring match on city, state or zip code; a blank
 * query shows the head of the list instead.
 */
module LocationSearch {
  import opened Basics
  import opened Text
  import opened Locations

  /** How many locations a blank query (and a shuffle) shows. */
  const InitialCount := 20

  /** `(q || '').trim().toLowerCase()`; `None` stands for `null` or `undefined`. */
  function NormalizeQuery(q: Option<string>): string {
    ToLower(Trim(q.GetOr("")))
  }

  /** The normalised query is empty exactly for an absent or blank query, and it holds no upper-case letter. */
  lemma NormalizeQuerySpec(q: Option<string>)
    ensures NormalizeQuery(q) == [] <==> q.None? || AllWhitespace(q.value)
    ensures forall i :: 0 <= i < |NormalizeQuery(q)| ==> !('A' <= NormalizeQuery(q)[i] <= 'Z')
  {
    var raw := q.GetOr("");
    TrimEmptyIff(raw);
    ToLowerSpec(Trim(raw));
  }

  /** The filter's test: the query occurs in the lower-cased city, the lower-cased state or the decimal zip code. */
  predicate Matches(l: Location, q: string) {
    Contains(ToLower(l.city), q) || Contains(ToLower(l.state), q) || Contains(Decimal(l.zip), q)
  }

  /** The callback `runSearch` hands to `filter`. */
  function MatcherFor(q: string): Location -> bool {
    l => Matches(l, q)
  }

  /** `s.filter(p)` */
  function Filter<T>(s: seq<T>, p: T -> bool): (r: seq<T>)
    ensures |r| <= |s|
    ensures forall x :: x in r ==> x in s && p(x)
  {
    if s == [] then []
    else
      var last := s[|s| - 1];
      Filter(s[..|s| - 1], p) + if p(last) then [last] else []
  }

  /** The list `runSearch(q)` hands to the renderer. */
  function Search(all: seq<Location>, q: Option<string>): (r: seq<Location>)
    ensures forall x :: x in r ==> x in all
  {
    var nq := NormalizeQuery(q);
    if nq == [] then all[..Min(|all|, InitialCount)] else Filter(all, MatcherFor(nq))
  }

  /**
   * `r` consists of the entries of `s` at the strictly increasing positions
   * `idx`, and those positions are exactly the entries that satisfy `p`.
   */
  ghost predicate SelectsInOrder<T>(s: seq<T>, r: seq<T>, p: T -> bool, idx: seq<int>) {
    |idx| == |r|
    && (forall k :: 0 <= k < |idx| ==> 0 <= idx[k] < |s| && r[k] == s[idx[k]])
    && (forall k, m :: 0 <= k < m < |idx| ==> idx[k] < idx[m])
    && (forall i :: 0 <= i < |s| ==> (p(s[i]) <==> i in idx))
  }

  /** The filter keeps every entry that passes, drops every other one and preserves the order. */
  lemma {:induction false} FilterSelects<T>(s: seq<T>, p: T -> bool) returns (idx: seq<int>)
    ensures SelectsInOrder(s, Filter(s, p), p, idx)
  {
    if s == [] {
      idx := [];
      return;
    }
    var prev := FilterSelects(s[..|s| - 1], p);
    idx := ExtendSelection(s, p, Filter(s[..|s| - 1], p), prev);
  }

  /** A selection from all but the last entry extends to the whole sequence. */
  lemma ExtendSelection<T>(s: seq<T>, p: T -> bool, q: seq<T>, prev: seq<int>) returns (idx: seq<int>)
    requires s != [] && SelectsInOrder(s[..|s| - 1], q, p, prev)
    ensures SelectsInOrder(s, q + if p(s[|s| - 1]) then [s[|s| - 1]] else [], p, idx)
  {
    var init, last := s[..|s| - 1], s[|s| - 1];
    assert forall k :: 0 <= k < |prev| ==> prev[k] < |init| && q[k] == s[prev[k]];
    assert |s| - 1 !in prev;
    if p(last) {
      idx := prev + [|s| - 1];
      forall i | 0 <= i < |s| - 1
        ensures p(s[i]) <==> i in idx
      {
        assert s[i] == init[i];
        assert i in idx <==> i in prev;
      }
    } else {
      idx := prev;
      forall i | 0 <= i < |s| - 1
        ensures p(s[i]) <==> i in idx
      {
        assert s[i] == init[i];
      }
    }
  }

  /** A blank query (absent, empty or whitespace only) shows exactly the first min(N, 20) locations, in order. */
  lemma SearchBlankQuery(all: seq<Location>, q: Option<string>)
    requires q.None? || AllWhitespace(q.value)
    ensures Search(all, q) == all[..Min(|all|, InitialCount)]
    ensures |Search(all, q)| == Min(|all|, InitialCount)
  {
    NormalizeQuerySpec(q);
  }

  /**
   * Any other query shows exactly the matching locations of the whole list,
   * in their original order, with no cap on their number.
   */
  lemma SearchSelectsMatches(all: seq<Location>, q: Option<string>) returns (idx: seq<int>)
    requires q.Some? && !AllWhitespace(q.value)
    ensures SelectsInOrder(all, Search(all, q), MatcherFor(NormalizeQuery(q)), idx)
  {
    NormalizeQuerySpec(q);
    idx := FilterSelects(all, MatcherFor(NormalizeQuery(q)));
  }

  /** Matching is substring occurrence in the lower-cased city, the lower-cased state or the zip's decimal text. */
  lemma MatchesIff(l: Location, q: string)
    ensures Matches(l, q) <==>
      (exists i :: OccursAt(ToLower(l.city), q, i))
      || (exists i :: OccursAt(ToLower(l.state), q, i))
      || (exists i :: OccursAt(Decimal(l.zip), q, i))
  {
    ContainsIff(ToLower(l.city), q);
    ContainsIff(ToLower(l.state), q);
    ContainsIff(Decimal(l.zip), q);
  }

  /**
   * Matching ignores ASCII case in city and state: two locations whose city
   * and state differ only in case, and whose zip codes agree, match the same
   * queries (so "RENO" and "Reno" are found alike).
   */
  lemma MatchesIgnoresCase(l: Location, m: Location, q: string)
    requires SameIgnoringCase(l.city, m.city) && SameIgnoringCase(l.state, m.state) && l.zip == m.zip
    ensures Matches(l, q) <==> Matches(m, q)
  {
    ToLowerIgnoresCase(l.city, m.city);
    ToLowerIgnoresCase(l.state, m.state);
  }

  /** Searching by a full zip code finds the location with that zip. */
  lemma SearchByZipExample()
    ensures
      var reno := Location(NumId(1), "Reno", "NV", 89501, Some("reno.jpg"), "Sunny", Current(60.0, 58.0, 20.0, 5.0));
      Search([reno], Some("89501")) == [reno]
  {
    var reno := Location(NumId(1), "Reno", "NV", 89501, Some("reno.jpg"), "Sunny", Current(60.0, 58.0, 20.0, 5.0));
    assert NormalizeQuery(Some("89501")) == "89501";
    assert Decimal(89501) == "89501";
    assert Matches(reno, "89501");
  }
}
