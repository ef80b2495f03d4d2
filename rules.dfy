/** The "when" rule compiler of echo.py: the operator table WHEN_TRANSLATER
    and `cmp_function`, which turns a watch entry's `when` string (an operator
    character followed by a number) into a predicate over the observed price
    paired with a message template.

    Python's `float()` is not modelled; every operation takes the number
    parser as a parameter `parse`, which either yields a number or fails. */
module Rules {
  import opened Wrappers

  /** The two keys of WHEN_TRANSLATER: `>` and `<`. */
  datatype Op = MoreThan | LessThan

  /** A compiled watch condition: a comparison of the observed price against
      a threshold, or the inert rule that stands in for a malformed string. */
  datatype Rule = Compare(op: Op, threshold: real) | Inert

  /** Looking a character up in WHEN_TRANSLATER; `None` is the KeyError. */
  function OpOf(c: char): Option<Op>
  {
    if c == '>' then Some(MoreThan)
    else if c == '<' then Some(LessThan)
    else None
  }

  /** The message phrase WHEN_TRANSLATER pairs with each operator. */
  function Phrase(op: Op): string
  {
    match op
    case MoreThan => "more than"
    case LessThan => "less than"
  }

  /** The comparison WHEN_TRANSLATER pairs with each operator, applied to the
      threshold `asked` and the observed price `fromCap`. */
  predicate Holds(op: Op, asked: real, fromCap: real)
  {
    match op
    case MoreThan => fromCap > asked
    case LessThan => fromCap < asked
  }

  /** The alert sentence around the phrase, with `symbol` and `price` in
      their places. */
  function Message(op: Op, symbol: string, price: string): string
  {
    symbol + " costs " + Phrase(op) + " it was expected. Its current price is " + price + " USD."
  }

  /** The format string `cmp_function` builds around the phrase: the
      sentence with the two placeholders that printing fills in. */
  function Template(op: Op): string
  {
    Message(op, "{symbol}", "{price:.4f}")
  }

  /** Python's `s[1:]`: everything after the first character, and the empty
      string for the empty string. */
  function Rest(s: string): string
  {
    if |s| == 0 then [] else s[1..]
  }

  /** The `when` strings `cmp_function` refuses (logging them): an empty
      string, a remainder that is not a number, or a first character that
      is not an operator of WHEN_TRANSLATER. */
  predicate Malformed(when: string, parse: string -> Option<real>)
  {
    when == [] || parse(when[1..]).None? || when[0] !in {'>', '<'}
  }

  /** `cmp_function`: parse the remainder first (ValueError), then index the
      first character (IndexError), then look it up (KeyError); any of the
      three gives the inert rule. */
  function Compile(when: string, parse: string -> Option<real>): (r: Rule)
    ensures r.Inert? <==> Malformed(when, parse)
    ensures r.Compare? ==> Some(r.threshold) == parse(when[1..])
    ensures r.Compare? ==> (r.op == MoreThan <==> when[0] == '>')
  {
    match parse(Rest(when))
    case None => Inert
    case Some(t) =>
      if |when| == 0 then Inert
      else
        match OpOf(when[0])
        case None => Inert
        case Some(op) => Compare(op, t)
  }

  /** Whether the compiled rule reports the observed price. */
  predicate Fires(rule: Rule, price: real)
  {
    rule.Compare? && Holds(rule.op, rule.threshold, price)
  }

  /** The closure `cmp_function` returns: the message template when the rule
      fires at this price, nothing otherwise. */
  function Check(rule: Rule, price: real): Option<string>
  {
    if Fires(rule, price) then Some(Template(rule.op)) else None
  }

  /** A `when` string `>T` whose remainder parses as T gives a rule that
      fires exactly when the observed price is strictly greater than T, with
      the "more than" template. */
  lemma GreaterRule(rest: string, t: real, parse: string -> Option<real>, price: real)
    requires parse(rest) == Some(t)
    ensures Compile(">" + rest, parse) == Compare(MoreThan, t)
    ensures Fires(Compile(">" + rest, parse), price) <==> price > t
    ensures Check(Compile(">" + rest, parse), price)
            == if price > t then Some(Template(MoreThan)) else None
  {
  }

  /** A `when` string `<T` whose remainder parses as T gives a rule that
      fires exactly when the observed price is strictly less than T, with
      the "less than" template. */
  lemma LessRule(rest: string, t: real, parse: string -> Option<real>, price: real)
    requires parse(rest) == Some(t)
    ensures Compile("<" + rest, parse) == Compare(LessThan, t)
    ensures Fires(Compile("<" + rest, parse), price) <==> price < t
    ensures Check(Compile("<" + rest, parse), price)
            == if price < t then Some(Template(LessThan)) else None
  {
  }

  /** An empty string, a remainder that does not parse (a lone operator
      included, when the empty string does not parse) and an unknown
      operator each give a rule that is silent at every price. */
  lemma MalformedIsSilent(when: string, parse: string -> Option<real>, price: real)
    ensures when == [] ==> Check(Compile(when, parse), price) == None
    ensures |when| > 0 && parse(when[1..]).None? ==> Check(Compile(when, parse), price) == None
    ensures |when| == 1 && parse([]).None? ==> Check(Compile(when, parse), price) == None
    ensures |when| > 0 && when[0] != '>' && when[0] != '<' ==> Check(Compile(when, parse), price) == None
  {
    if |when| == 1 {
      assert when[1..] == [];
    }
  }

  /** A price equal to the threshold never fires, for either operator. */
  lemma ThresholdIsSilent(rule: Rule, price: real)
    requires rule.Compare? && price == rule.threshold
    ensures !Fires(rule, price)
  {
  }

  /** The sentence tells which way the price moved: two sentences for the
      same symbol and price are equal only when their operators are, so in
      particular the two templates differ. */
  lemma {:induction false} MessageShowsDirection(a: Op, b: Op, symbol: string, price: string)
    ensures Message(a, symbol, price) == Message(b, symbol, price) <==> a == b
  {
    if a != b {
      var k := |symbol| + 7;
      assert Message(a, symbol, price)[k] == Phrase(a)[0];
      assert Message(b, symbol, price)[k] == Phrase(b)[0];
    }
  }
}
