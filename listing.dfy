/**
 * The admin listing (app.py:105): every booking, ordered by date and then
 * by start time. The database does the sorting; here it is an insertion
 * sort whose contract is what the ORDER BY promises, a sorted permutation.
 * Bookings with equal date and start time may come in either order in the
 * source; this model lists the later-stored of them first.
 */
module Listing {
  import opened Models

  /** `ORDER BY date, start_time`: dates compared by year, month, day, then start times. */
  predicate KeyLeq(a: Booking, b: Booking)
  {
    if a.date.year != b.date.year then a.date.year < b.date.year
    else if a.date.month != b.date.month then a.date.month < b.date.month
    else if a.date.day != b.date.day then a.date.day < b.date.day
    else a.startTime <= b.startTime
  }

  predicate SortedByKey(s: seq<Booking>)
  {
    forall i, j :: 0 <= i < j < |s| ==> KeyLeq(s[i], s[j])
  }

  lemma KeyLeqTotal(a: Booking, b: Booking)
    ensures KeyLeq(a, b) || KeyLeq(b, a)
  {
  }

  lemma KeyLeqTransitive(a: Booking, b: Booking, c: Booking)
    requires KeyLeq(a, b) && KeyLeq(b, c)
    ensures KeyLeq(a, c)
  {
  }

  /** `x` comes no later than anything in `t`. */
  predicate LeqAll(x: Booking, t: seq<Booking>)
  {
    forall k :: 0 <= k < |t| ==> KeyLeq(x, t[k])
  }

  lemma LeqAllOfSameElements(x: Booking, t: seq<Booking>, u: seq<Booking>)
    requires LeqAll(x, t) && multiset(u) <= multiset(t)
    ensures LeqAll(x, u)
  {
    forall k | 0 <= k < |u| ensures KeyLeq(x, u[k]) {
      assert u[k] in multiset(u);
      assert u[k] in t;
    }
  }

  lemma ConsSorted(x: Booking, t: seq<Booking>)
    requires SortedByKey(t) && LeqAll(x, t)
    ensures SortedByKey([x] + t)
  {
  }

  /** Places `b` into an already ordered listing. */
  function Insert(b: Booking, s: seq<Booking>): (r: seq<Booking>)
    requires SortedByKey(s)
    ensures SortedByKey(r)
    ensures multiset(r) == multiset(s) + multiset{b}
  {
    if s == [] then [b]
    else if KeyLeq(b, s[0]) then
      forall k | 0 <= k < |s| ensures KeyLeq(b, s[k]) {
        if k > 0 { KeyLeqTransitive(b, s[0], s[k]); }
      }
      ConsSorted(b, s);
      [b] + s
    else
      var rest := Insert(b, s[1..]);
      KeyLeqTotal(b, s[0]);
      assert LeqAll(s[0], s[1..] + [b]);
      assert multiset(s[1..] + [b]) == multiset(rest);
      LeqAllOfSameElements(s[0], s[1..] + [b], rest);
      ConsSorted(s[0], rest);
      assert s == [s[0]] + s[1..];
      [s[0]] + rest
  }

  /** The listing of the stored bookings. */
  function SortByKey(s: seq<Booking>): (r: seq<Booking>)
    ensures SortedByKey(r)
    ensures multiset(r) == multiset(s)
  {
    if s == [] then []
    else
      assert s == s[..|s| - 1] + [s[|s| - 1]];
      Insert(s[|s| - 1], SortByKey(s[..|s| - 1]))
  }

  /** A stored booking shows up in the listing, with every field as stored. */
  lemma ListedIfStored(s: seq<Booking>, b: Booking)
    requires b in s
    ensures b in SortByKey(s)
  {
    assert b in multiset(s);
    assert b in multiset(SortByKey(s));
  }
}
