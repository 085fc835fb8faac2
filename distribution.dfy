/**
 * Spreading a base price over the available listings: the order the listings are
 * priced in (zed_smartpr.py filters its priority list, finikas_smartpr.py dedupes
 * the availability answer) and the step ladder each listing's price is read from.
 */
module Distribution {
  import opened Common
  import opened Pricing

  /** One `send_price` call: a nightly price for one listing on one date. */
  datatype Submission = Submission(listing: int, date: int, price: real)

  // ---------------------------------------------------------------------------
  // Listing order
  // ---------------------------------------------------------------------------

  /**
   * zed_smartpr.py: `[apt for apt in APARTMENTS if apt in available_apts]`, the
   * priority list restricted to the available ids, in priority order.
   */
  function ZedOrder(priority: seq<int>, available: seq<int>): (r: seq<int>)
    ensures forall x :: multiset(r)[x] == if x in available then multiset(priority)[x] else 0
    ensures forall x :: x in r <==> x in priority && x in available
    ensures Subsequence(r, priority)
  {
    if |priority| == 0 then []
    else
      var rest := ZedOrder(priority[1..], available);
      assert priority == [priority[0]] + priority[1..];
      if priority[0] in available then
        assert ([priority[0]] + rest)[1..] == rest;
        [priority[0]] + rest
      else rest
  }

  /** Position of the first occurrence of `x` in `s`. */
  function FirstIndex(s: seq<int>, x: int): (r: nat)
    requires x in s
    ensures r < |s| && s[r] == x && x !in s[..r]
  {
    if s[0] == x then 0
    else
      var k := FirstIndex(s[1..], x);
      assert s[..k + 1] == [s[0]] + s[1..][..k];
      k + 1
  }

  /** The ids of `s` not in `seen`, each once, in order of first occurrence: inserting them into a dict in turn. */
  function DedupeFrom(s: seq<int>, seen: set<int>): (r: seq<int>)
    ensures NoDuplicates(r)
    ensures forall x :: x in r <==> x in s && x !in seen
    ensures Subsequence(r, s)
  {
    if |s| == 0 then []
    else if s[0] in seen then DedupeFrom(s[1..], seen)
    else
      var rest := DedupeFrom(s[1..], seen + {s[0]});
      assert ([s[0]] + rest)[1..] == rest;
      [s[0]] + rest
  }

  /** finikas_smartpr.py: `list(dict.fromkeys(available))`. */
  function Dedupe(s: seq<int>): (r: seq<int>)
    ensures NoDuplicates(r)
    ensures forall x :: x in r <==> x in s
  {
    DedupeFrom(s, {})
  }

  /** Every id of `r` occurs in `s`, and the ids of `r` come in the order of their first occurrence in `s`. */
  ghost predicate InFirstOccurrenceOrder(r: seq<int>, s: seq<int>)
  {
    (forall x :: x in r ==> x in s) &&
    forall i, j :: 0 <= i < j < |r| ==> FirstIndex(s, r[i]) < FirstIndex(s, r[j])
  }

  lemma FirstIndexTail(s: seq<int>, y: int)
    requires y in s && y != s[0]
    ensures y in s[1..] && FirstIndex(s, y) == FirstIndex(s[1..], y) + 1
  {
    assert s == [s[0]] + s[1..];
  }

  /** An order that holds in the tail of `s` holds in `s` for ids other than its head. */
  lemma OrderInTail(r: seq<int>, s: seq<int>)
    requires |s| > 0 && s[0] !in r
    requires InFirstOccurrenceOrder(r, s[1..])
    ensures InFirstOccurrenceOrder(r, s)
  {
    forall y | y in r
      ensures y in s && FirstIndex(s, y) == FirstIndex(s[1..], y) + 1
    {
      FirstIndexTail(s, y);
    }
  }

  /** Putting the head of `s` in front keeps the order, its first index being 0. */
  lemma OrderWithHead(r: seq<int>, s: seq<int>)
    requires |s| > 0 && s[0] !in r
    requires InFirstOccurrenceOrder(r, s)
    ensures InFirstOccurrenceOrder([s[0]] + r, s)
  {
    var r' := [s[0]] + r;
    forall i, j | 0 <= i < j < |r'|
      ensures FirstIndex(s, r'[i]) < FirstIndex(s, r'[j])
    {
      assert r'[j] == r[j - 1];
      if i > 0 {
        assert r'[i] == r[i - 1];
      } else {
        FirstIndexTail(s, r'[j]);
      }
    }
  }

  /**
   * The deduplicated ids follow the order in which each id first occurs in the
   * availability answer.
   */
  lemma {:induction false} DedupeFromFirstOccurrence(s: seq<int>, seen: set<int>)
    ensures InFirstOccurrenceOrder(DedupeFrom(s, seen), s)
  {
    if |s| > 0 {
      var seen' := if s[0] in seen then seen else seen + {s[0]};
      var rest := DedupeFrom(s[1..], seen');
      DedupeFromFirstOccurrence(s[1..], seen');
      OrderInTail(rest, s);
      if s[0] !in seen {
        OrderWithHead(rest, s);
      }
    }
  }

  /** `list(dict.fromkeys(available))` lists each available id once, in order of first occurrence. */
  lemma DedupeFirstOccurrence(s: seq<int>)
    ensures InFirstOccurrenceOrder(Dedupe(s), s)
  {
    DedupeFromFirstOccurrence(s, {});
  }

  // ---------------------------------------------------------------------------
  // Price ladder
  // ---------------------------------------------------------------------------

  /** `step = (max_price - price) / n if n > 0 else 0`. */
  function LadderStep(base: real, maxP: real, n: nat): real
  {
    if n > 0 then (maxP - base) / n as real else 0.0
  }

  /** The price of the listing at 0-based position k: `min(price + k * step, max_price)`. */
  function LadderPrice(base: real, maxP: real, n: nat, k: nat): (r: real)
    ensures r <= maxP
  {
    Min(base + k as real * LadderStep(base, maxP, n), maxP)
  }

  /** The submissions for one date: the flat price for a long-term quote, the ladder for a scored one. */
  function Priced(listings: seq<int>, date: int, q: Quote): (r: seq<Submission>)
    requires q.Flat? || q.Scored?
    ensures |r| == |listings|
    ensures forall k :: 0 <= k < |r| ==> r[k].listing == listings[k] && r[k].date == date
  {
    seq(|listings|, k requires 0 <= k < |listings| =>
      Submission(listings[k], date,
        if q.Flat? then q.price else LadderPrice(q.price, q.maxPrice, |listings|, k)))
  }

  /**
   * The distribution loops of both scripts: one submission per listing, in
   * listing order, at the flat price or at the listing's ladder price.
   */
  method Distribute(listings: seq<int>, date: int, q: Quote) returns (subs: seq<Submission>)
    requires q.Flat? || q.Scored?
    ensures subs == Priced(listings, date, q)
  {
    subs := [];
    if q.Flat? {
      for k := 0 to |listings|
        invariant |subs| == k
        invariant forall j :: 0 <= j < k ==> subs[j] == Submission(listings[j], date, q.price)
      {
        subs := subs + [Submission(listings[k], date, q.price)];
      }
    } else {
      var n := |listings|;
      var step := if n > 0 then (q.maxPrice - q.price) / n as real else 0.0;
      for k := 0 to n
        invariant |subs| == k
        invariant forall j :: 0 <= j < k ==>
                    subs[j] == Submission(listings[j], date, LadderPrice(q.price, q.maxPrice, n, j))
      {
        var p := q.price + k as real * step;
        p := Min(p, q.maxPrice);
        subs := subs + [Submission(listings[k], date, p)];
      }
    }
  }

  /** When the base is within the cap, the cap never bites: listing k gets exactly base + k * step. */
  lemma LadderUncapped(base: real, maxP: real, n: nat, k: nat)
    requires base <= maxP && k < n
    ensures LadderPrice(base, maxP, n, k) == base + k as real * LadderStep(base, maxP, n)
  {
    var step := LadderStep(base, maxP, n);
    assert step * n as real == maxP - base;
    assert k as real * step <= n as real * step by {
      assert (n - k) as real * step >= 0.0;
    }
  }

  /** When the base is within the cap, the first listing gets the base price and the ladder never goes down. */
  lemma LadderNonDecreasing(base: real, maxP: real, n: nat, k1: nat, k2: nat)
    requires base <= maxP && k1 <= k2
    ensures LadderPrice(base, maxP, n, 0) == base
    ensures LadderPrice(base, maxP, n, k1) <= LadderPrice(base, maxP, n, k2)
  {
    var step := LadderStep(base, maxP, n);
    assert step >= 0.0;
    assert k1 as real * step <= k2 as real * step by {
      assert (k2 - k1) as real * step >= 0.0;
    }
  }

  /** A base above the cap (only when a row's min exceeds its max) gives every listing the cap. */
  lemma LadderAboveCap(base: real, maxP: real, n: nat, k: nat)
    requires base > maxP && k < n
    ensures LadderPrice(base, maxP, n, k) == maxP
  {
    var step := LadderStep(base, maxP, n);
    assert step * n as real == maxP - base;
    assert k as real * step >= n as real * step by {
      assert (n - k) as real * step <= 0.0;
    }
  }

  /**
   * What the submissions of one date look like: every listing gets the base price
   * in the long-term regime; otherwise, with the base within the cap, the first
   * listing gets the base, no later listing gets less, and none gets more than the cap.
   */
  lemma PricedLadder(listings: seq<int>, date: int, q: Quote)
    requires q.Flat? || q.Scored?
    ensures var r := Priced(listings, date, q);
            && (q.Flat? ==> forall k :: 0 <= k < |r| ==> r[k].price == q.price)
            && (q.Scored? ==> forall k :: 0 <= k < |r| ==> r[k].price <= q.maxPrice)
            && (q.Scored? && q.price <= q.maxPrice && |r| > 0 ==> r[0].price == q.price)
            && (q.Scored? && q.price <= q.maxPrice ==>
                  forall i, j :: 0 <= i <= j < |r| ==> r[i].price <= r[j].price)
  {
    var r := Priced(listings, date, q);
    if q.Scored? && q.price <= q.maxPrice {
      if |r| > 0 {
        LadderNonDecreasing(q.price, q.maxPrice, |listings|, 0, 0);
      }
      forall i, j | 0 <= i <= j < |r|
        ensures r[i].price <= r[j].price
      {
        LadderNonDecreasing(q.price, q.maxPrice, |listings|, i, j);
      }
    }
  }
}
