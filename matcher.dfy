/** The matching part of `main` in echo.py: one compiled rule per watch
    entry, kept in a list aligned with the entries, then for every listing
    and every watch entry with the listing's symbol, an alert line when that
    entry's rule fires at the listing's USD price.

    A printed line is modelled as the triple (symbol, operator, price); its
    text is given by `Render`, with the four-decimal rendering of the price
    left as a parameter. */
module Matcher {
  import opened Wrappers
  import opened Rules

  /** A listing record: its `symbol` and its `quote.USD.price`. */
  datatype Listing = Listing(symbol: string, price: real)

  /** A watch entry: the `symbol` to watch and its `when` condition. */
  datatype Watch = Watch(symbol: string, when: string)

  /** One printed alert line: the listing's symbol, the operator of the rule
      that fired, and the listing's price. */
  datatype Alert = Alert(symbol: string, op: Op, price: real)

  /** A (listing index, watch index) pair the matcher looks at. */
  type Pair = (nat, nat)

  /** The compiled rules, one per watch entry, built entry by entry. */
  function Compiled(watching: seq<Watch>, parse: string -> Option<real>): (rules: seq<Rule>)
    ensures |rules| == |watching|
    ensures forall i :: 0 <= i < |watching| ==> rules[i] == Compile(watching[i].when, parse)
  {
    if watching == [] then []
    else Compiled(watching[..|watching| - 1], parse) + [Compile(watching[|watching| - 1].when, parse)]
  }

  /** Pair `p` names an existing listing and watch entry with the same
      symbol, and the entry's rule fires at the listing's price. */
  predicate IsHit(listings: seq<Listing>, watching: seq<Watch>, rules: seq<Rule>, p: Pair)
  {
    p.0 < |listings| && p.1 < |watching| && p.1 < |rules|
    && watching[p.1].symbol == listings[p.0].symbol
    && Fires(rules[p.1], listings[p.0].price)
  }

  /** The hits of listing `j` among the first `n` watch entries, in watch
      order. */
  function RowHits(listings: seq<Listing>, watching: seq<Watch>, rules: seq<Rule>, j: nat, n: nat): (ps: seq<Pair>)
    requires j < |listings| && n <= |watching| == |rules|
    ensures forall k :: 0 <= k < |ps| ==> ps[k].0 == j && ps[k].1 < n
    ensures forall k :: 0 <= k < |ps| ==> IsHit(listings, watching, rules, ps[k])
  {
    if n == 0 then []
    else
      RowHits(listings, watching, rules, j, n - 1)
      + (if IsHit(listings, watching, rules, (j, n - 1)) then [(j, n - 1)] else [])
  }

  /** The hits of the first `m` listings, listing by listing. */
  function Hits(listings: seq<Listing>, watching: seq<Watch>, rules: seq<Rule>, m: nat): (ps: seq<Pair>)
    requires m <= |listings| && |watching| == |rules|
    ensures forall k :: 0 <= k < |ps| ==> ps[k].0 < m
    ensures forall k :: 0 <= k < |ps| ==> IsHit(listings, watching, rules, ps[k])
  {
    if m == 0 then []
    else Hits(listings, watching, rules, m - 1) + RowHits(listings, watching, rules, m - 1, |watching|)
  }

  /** The alert line a hit prints. */
  function Emit(listings: seq<Listing>, watching: seq<Watch>, rules: seq<Rule>, p: Pair): (a: Alert)
    requires IsHit(listings, watching, rules, p)
    ensures a.symbol == watching[p.1].symbol
    ensures Holds(a.op, rules[p.1].threshold, a.price)
  {
    Alert(listings[p.0].symbol, rules[p.1].op, listings[p.0].price)
  }

  /** The alert lines of a sequence of hits, in the same order. */
  function AlertsOf(listings: seq<Listing>, watching: seq<Watch>, rules: seq<Rule>, ps: seq<Pair>): seq<Alert>
    requires forall k :: 0 <= k < |ps| ==> IsHit(listings, watching, rules, ps[k])
  {
    seq(|ps|, k requires 0 <= k < |ps| => Emit(listings, watching, rules, ps[k]))
  }

  /** The lines printed for listing `j` while scanning the first `n` watch
      entries. */
  function RowAlerts(listings: seq<Listing>, watching: seq<Watch>, rules: seq<Rule>, j: nat, n: nat): seq<Alert>
    requires j < |listings| && n <= |watching| == |rules|
  {
    if n == 0 then []
    else
      RowAlerts(listings, watching, rules, j, n - 1)
      + (if IsHit(listings, watching, rules, (j, n - 1)) then [Emit(listings, watching, rules, (j, n - 1))] else [])
  }

  /** The lines printed for the first `m` listings. */
  function AlertsUpTo(listings: seq<Listing>, watching: seq<Watch>, rules: seq<Rule>, m: nat): seq<Alert>
    requires m <= |listings| && |watching| == |rules|
  {
    if m == 0 then []
    else AlertsUpTo(listings, watching, rules, m - 1) + RowAlerts(listings, watching, rules, m - 1, |watching|)
  }

  /** Everything the matcher prints for these listings and watch entries. */
  function Alerts(listings: seq<Listing>, watching: seq<Watch>, parse: string -> Option<real>): seq<Alert>
  {
    AlertsUpTo(listings, watching, Compiled(watching, parse), |listings|)
  }

  /** The printed text of an alert, given the four-decimal rendering of its
      price: the rule's template with the symbol and the price filled in. */
  function Render(a: Alert, priceText: string): string
  {
    Message(a.op, a.symbol, priceText)
  }

  /** The loop of `main`: fill the rule list by index, then for every listing
      in order and every watch index in order, print an alert when the
      symbols agree and the entry's rule fires. */
  method Match(listings: seq<Listing>, watching: seq<Watch>, parse: string -> Option<real>)
    returns (out: seq<Alert>)
    ensures out == Alerts(listings, watching, parse)
  {
    var functions := new Rule[|watching|];
    for i := 0 to |watching|
      invariant forall k :: 0 <= k < i ==> functions[k] == Compile(watching[k].when, parse)
    {
      functions[i] := Compile(watching[i].when, parse);
    }
    ghost var rules := Compiled(watching, parse);
    assert functions[..] == rules;

    out := [];
    for j := 0 to |listings|
      invariant functions[..] == rules
      invariant out == AlertsUpTo(listings, watching, rules, j)
    {
      for i := 0 to |watching|
        invariant functions[..] == rules
        invariant out == AlertsUpTo(listings, watching, rules, j) + RowAlerts(listings, watching, rules, j, i)
      {
        assert functions[i] == rules[i];
        if watching[i].symbol != listings[j].symbol {
          continue;
        }
        var s := Check(functions[i], listings[j].price);
        if s.Some? {
          out := out + [Alert(listings[j].symbol, functions[i].op, listings[j].price)];
        }
      }
    }
  }

  /** The lines of two runs of hits, one after the other. */
  lemma AlertsOfAppend(listings: seq<Listing>, watching: seq<Watch>, rules: seq<Rule>, ps: seq<Pair>, qs: seq<Pair>)
    requires forall k :: 0 <= k < |ps| ==> IsHit(listings, watching, rules, ps[k])
    requires forall k :: 0 <= k < |qs| ==> IsHit(listings, watching, rules, qs[k])
    ensures AlertsOf(listings, watching, rules, ps + qs)
            == AlertsOf(listings, watching, rules, ps) + AlertsOf(listings, watching, rules, qs)
  {
  }

  /** The lines printed for a listing are the lines of its hits. */
  lemma {:induction false} RowAlertsOfHits(listings: seq<Listing>, watching: seq<Watch>, rules: seq<Rule>, j: nat, n: nat)
    requires j < |listings| && n <= |watching| == |rules|
    ensures RowAlerts(listings, watching, rules, j, n)
            == AlertsOf(listings, watching, rules, RowHits(listings, watching, rules, j, n))
  {
    if n > 0 {
      RowAlertsOfHits(listings, watching, rules, j, n - 1);
      var ps := RowHits(listings, watching, rules, j, n - 1);
      var last: seq<Pair> := if IsHit(listings, watching, rules, (j, n - 1)) then [(j, n - 1)] else [];
      assert RowHits(listings, watching, rules, j, n) == ps + last;
      AlertsOfAppend(listings, watching, rules, ps, last);
    }
  }

  /** The printed lines are the lines of the hits, one per hit, in the order
      the hits are found. */
  lemma {:induction false} AlertsOfHits(listings: seq<Listing>, watching: seq<Watch>, rules: seq<Rule>, m: nat)
    requires m <= |listings| && |watching| == |rules|
    ensures AlertsUpTo(listings, watching, rules, m)
            == AlertsOf(listings, watching, rules, Hits(listings, watching, rules, m))
  {
    if m > 0 {
      var ps := Hits(listings, watching, rules, m - 1);
      var qs := RowHits(listings, watching, rules, m - 1, |watching|);
      assert Hits(listings, watching, rules, m) == ps + qs;
      AlertsOfHits(listings, watching, rules, m - 1);
      RowAlertsOfHits(listings, watching, rules, m - 1, |watching|);
      AlertsOfAppend(listings, watching, rules, ps, qs);
    }
  }

  /** Lexicographic order on pairs: listing index first, then watch index. */
  predicate Before(p: Pair, q: Pair)
  {
    p.0 < q.0 || (p.0 == q.0 && p.1 < q.1)
  }

  /** Row `j` holds exactly the hits of listing `j` below watch index `n`. */
  lemma {:induction false} RowHitsExact(listings: seq<Listing>, watching: seq<Watch>, rules: seq<Rule>, j: nat, n: nat, p: Pair)
    requires j < |listings| && n <= |watching| == |rules|
    ensures p in RowHits(listings, watching, rules, j, n)
            <==> p.0 == j && p.1 < n && IsHit(listings, watching, rules, p)
  {
    if n > 0 {
      RowHitsExact(listings, watching, rules, j, n - 1, p);
    }
  }

  /** The matcher's pairs are exactly the hits among the first `m` listings. */
  lemma {:induction false} HitsExact(listings: seq<Listing>, watching: seq<Watch>, rules: seq<Rule>, m: nat, p: Pair)
    requires m <= |listings| && |watching| == |rules|
    ensures p in Hits(listings, watching, rules, m)
            <==> p.0 < m && IsHit(listings, watching, rules, p)
  {
    if m > 0 {
      HitsExact(listings, watching, rules, m - 1, p);
      RowHitsExact(listings, watching, rules, m - 1, |watching|, p);
    }
  }

  /** A row is in increasing watch order. */
  lemma {:induction false} RowHitsOrdered(listings: seq<Listing>, watching: seq<Watch>, rules: seq<Rule>, j: nat, n: nat)
    requires j < |listings| && n <= |watching| == |rules|
    ensures forall a, b :: 0 <= a < b < |RowHits(listings, watching, rules, j, n)| ==>
              Before(RowHits(listings, watching, rules, j, n)[a], RowHits(listings, watching, rules, j, n)[b])
  {
    if n > 0 {
      RowHitsOrdered(listings, watching, rules, j, n - 1);
    }
  }

  /** The pairs come in listing order, then watch order: strictly increasing,
      so no pair appears twice. */
  lemma {:induction false} HitsOrdered(listings: seq<Listing>, watching: seq<Watch>, rules: seq<Rule>, m: nat)
    requires m <= |listings| && |watching| == |rules|
    ensures forall a, b :: 0 <= a < b < |Hits(listings, watching, rules, m)| ==>
              Before(Hits(listings, watching, rules, m)[a], Hits(listings, watching, rules, m)[b])
  {
    if m > 0 {
      HitsOrdered(listings, watching, rules, m - 1);
      RowHitsOrdered(listings, watching, rules, m - 1, |watching|);
    }
  }

  /** What `main` prints: one line per (listing, watch entry) pair whose
      symbols agree and whose rule fires, carrying the listing's symbol and
      price and the entry's operator, and the lines in listing order, then
      watch order. */
  lemma AlertsExact(listings: seq<Listing>, watching: seq<Watch>, parse: string -> Option<real>)
    ensures var rules := Compiled(watching, parse);
            var ps := Hits(listings, watching, rules, |listings|);
            Alerts(listings, watching, parse) == AlertsOf(listings, watching, rules, ps)
            && (forall p :: p in ps <==> IsHit(listings, watching, rules, p))
            && (forall a, b :: 0 <= a < b < |ps| ==> Before(ps[a], ps[b]))
  {
    var rules := Compiled(watching, parse);
    AlertsOfHits(listings, watching, rules, |listings|);
    forall p
      ensures p in Hits(listings, watching, rules, |listings|) <==> IsHit(listings, watching, rules, p)
    {
      HitsExact(listings, watching, rules, |listings|, p);
    }
    HitsOrdered(listings, watching, rules, |listings|);
  }

  /** A watch entry whose symbol no listing carries takes part in no hit,
      whatever the rules. */
  lemma UnmatchedWatchIsSilent(listings: seq<Listing>, watching: seq<Watch>, rules: seq<Rule>, i: nat)
    requires i < |watching| == |rules|
    requires forall j :: 0 <= j < |listings| ==> listings[j].symbol != watching[i].symbol
    ensures forall j: nat :: (j, i) !in Hits(listings, watching, rules, |listings|)
  {
  }

  /** Two distinct watch entries with the same symbol and the same `when`
      string are both reported for a listing that triggers one of them: both
      pairs are found, at different places of the pair sequence (which
      `HitsOrdered` keeps in order and `AlertsExact` maps to the printed
      lines), and the two lines are identical. */
  lemma DuplicateWatchesEachAlert(listings: seq<Listing>, watching: seq<Watch>, parse: string -> Option<real>, j: nat, i1: nat, i2: nat)
    requires j < |listings| && i1 < |watching| && i2 < |watching| && i1 != i2
    requires watching[i1] == watching[i2]
    requires IsHit(listings, watching, Compiled(watching, parse), (j, i1))
    ensures (j, i1) in Hits(listings, watching, Compiled(watching, parse), |listings|)
    ensures (j, i2) in Hits(listings, watching, Compiled(watching, parse), |listings|)
    ensures IsHit(listings, watching, Compiled(watching, parse), (j, i2))
            && Emit(listings, watching, Compiled(watching, parse), (j, i1))
               == Emit(listings, watching, Compiled(watching, parse), (j, i2))
  {
    var rules := Compiled(watching, parse);
    HitsExact(listings, watching, rules, |listings|, (j, i1));
    HitsExact(listings, watching, rules, |listings|, (j, i2));
  }

  /** The compiled rule of entry `i` depends on that entry's `when` string
      alone: entries with the same string, in any two watch lists, compile
      to the same rule. */
  lemma CompiledIsLocal(w1: seq<Watch>, w2: seq<Watch>, parse: string -> Option<real>, i1: nat, i2: nat)
    requires i1 < |w1| && i2 < |w2| && w1[i1].when == w2[i2].when
    ensures Compiled(w1, parse)[i1] == Compiled(w2, parse)[i2]
  {
  }
}
