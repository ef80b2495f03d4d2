/** The control flow of `main` in echo.py: the early returns on a missing
    API key, on undecodable standard input and on an empty listing
    collection, and the exit status each gives.

    The environment, standard input and the network are inputs here: the
    value of the `key` variable, the outcome of decoding standard input, and
    the listings the fetch returns (empty when the fetch failed). */
module Entry {
  import opened Wrappers
  import opened Rules
  import opened Matcher

  /** The outcome of decoding standard input as the watch list. */
  datatype Stdin = Decoded(watching: seq<Watch>) | SyntaxError

  /** Where a run of `main` stops. */
  datatype Stage = NoKey | BadInput | NoListings | Completed

  /** Python's `not key` is false: the variable is set and not empty. */
  predicate HasKey(key: Option<string>)
  {
    key.Some? && key.value != []
  }

  /** The checks of `main`, in the order it makes them. */
  function Decide(key: Option<string>, stdin: Stdin, listings: seq<Listing>): Stage
  {
    if !HasKey(key) then NoKey
    else if stdin.SyntaxError? then BadInput
    else if listings == [] then NoListings
    else Completed
  }

  /** The process exit status: `main`'s return value, with the implicit
      `None` of a completed run exiting with 0. */
  function Status(stage: Stage): int
  {
    match stage
    case NoKey => 1
    case BadInput => 1
    case NoListings => 2
    case Completed => 0
  }

  /** `main`: `fetched` says whether the listings were requested, `out` is
      what was printed. */
  method Run(key: Option<string>, stdin: Stdin, listings: seq<Listing>, parse: string -> Option<real>)
    returns (status: int, fetched: bool, out: seq<Alert>)
    ensures status == Status(Decide(key, stdin, listings))
    ensures fetched <==> HasKey(key) && stdin.Decoded?
    ensures out == if Decide(key, stdin, listings) == Completed
                   then Alerts(listings, stdin.watching, parse) else []
  {
    fetched, out := false, [];
    if key.None? || key.value == [] {
      return 1, fetched, out;
    }
    if stdin.SyntaxError? {
      return 1, fetched, out;
    }
    fetched := true;
    if listings == [] {
      return 2, fetched, out;
    }
    out := Match(listings, stdin.watching, parse);
    status := 0;
  }

  /** The exit statuses: 1 for a missing or empty key or undecodable input,
      2 for an empty listing collection, 0 otherwise; the key is looked at
      before anything else, so without it neither the input nor the
      listings matter. */
  lemma StatusCases(key: Option<string>, stdin: Stdin, listings: seq<Listing>)
    ensures Status(Decide(key, stdin, listings)) == 1 <==> !HasKey(key) || stdin.SyntaxError?
    ensures Status(Decide(key, stdin, listings)) == 2 <==> HasKey(key) && stdin.Decoded? && listings == []
    ensures Status(Decide(key, stdin, listings)) == 0 <==> HasKey(key) && stdin.Decoded? && listings != []
    ensures !HasKey(key) ==> forall s: Stdin, l: seq<Listing> :: Decide(key, s, l) == NoKey
  {
  }

  /** The example run: watching BTC for `>50000`, a BTC listing at 51234.5678
      gives exactly the one "more than" line, and one at 49000 gives none. */
  lemma BtcExample(parse: string -> Option<real>)
    requires parse("50000") == Some(50000.0)
    ensures Decide(Some("k"), Decoded([Watch("BTC", ">50000")]), [Listing("BTC", 51234.5678)]) == Completed
    ensures Alerts([Listing("BTC", 51234.5678)], [Watch("BTC", ">50000")], parse)
            == [Alert("BTC", MoreThan, 51234.5678)]
    ensures Alerts([Listing("BTC", 49000.0)], [Watch("BTC", ">50000")], parse) == []
  {
    var watching := [Watch("BTC", ">50000")];
    assert ">50000" == ">" + "50000";
    GreaterRule("50000", 50000.0, parse, 51234.5678);
    var rules := Compiled(watching, parse);
    assert rules == [Compare(MoreThan, 50000.0)];
    var above := [Listing("BTC", 51234.5678)];
    assert IsHit(above, watching, rules, (0, 0));
    assert Emit(above, watching, rules, (0, 0)) == Alert("BTC", MoreThan, 51234.5678);
    assert RowAlerts(above, watching, rules, 0, 1) == [] + [Alert("BTC", MoreThan, 51234.5678)];
    assert AlertsUpTo(above, watching, rules, 1) == [] + RowAlerts(above, watching, rules, 0, 1);
    var below := [Listing("BTC", 49000.0)];
    assert !IsHit(below, watching, rules, (0, 0));
    assert RowAlerts(below, watching, rules, 0, 1) == [] + [];
    assert AlertsUpTo(below, watching, rules, 1) == [] + RowAlerts(below, watching, rules, 0, 1);
  }
}
