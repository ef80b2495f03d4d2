# cryptoalert alert rules, in Dafny

A model of the alert-rule core of `echo.py`, a one-shot script that reads a
watch list (entries of a symbol and a `when` condition such as `>45000.5`)
from standard input, fetches the latest cryptocurrency listings, and prints a
line for every watched symbol whose price has crossed its threshold.

- `rules.dfy`, module `Rules`: the operator table `WHEN_TRANSLATER` and
  `cmp_function`. A `when` string compiles to `Compare(op, threshold)` or,
  when it is malformed, to `Inert`; `Check` is the closure that returns the
  message template when the rule fires, and `GreaterRule`, `LessRule` and
  `MalformedIsSilent` say when that is. Python's `float()` is a parameter
  `parse: string -> Option<real>` of every operation.
- `matcher.dfy`, module `Matcher`: the part of `main` that fills the list of
  compiled rules by index (an array here, as in the script) and runs the
  nested loop over listings and watch indices. `Match` is the imperative loop;
  it is proved equal to the specification `Alerts`, and the lemmas
  characterise `Alerts` through the (listing, watch index) pairs it reports:
  exactly the pairs with equal symbols whose rule fires, in listing order, then
  watch order.
- `entry.dfy`, module `Entry`: the early returns of `main` (no key, bad input,
  no listings) and the exit status of each. The environment variable, the
  decoded standard input and the fetched listings are inputs.
- `wrappers.dfy`, module `Wrappers`: the `Option` type.

A printed line is modelled as `Alert(symbol, op, price)`; `Rules.Message`
gives its sentence and `Matcher.Render` fills it in with a given rendering of
the price.

The handler at echo.py:100-105 is meant to log and skip a listing whose price
it cannot find, but it catches only `ValueError`, while a missing `quote`,
`USD` or `price` key raises `KeyError`, so the script stops there. The model
takes listings and watch entries to be well-formed records (their types carry
the fields) and has no skipping path.

## Model

| member | source | states |
|---|---|---|
| `Rules.Compile` | echo.py:58-71 | the rule is inert exactly when the string is empty, its remainder does not parse, or its first character is neither `>` nor `<`; otherwise it holds the parsed remainder as threshold and `>` gives the "more than" operator |
| `Rules.GreaterRule` | echo.py:58-68 | `>T` with T parsing compiles to a "more than" rule that fires exactly when the price is strictly greater than T, returning the "more than" template |
| `Rules.LessRule` | echo.py:58-68 | `<T` with T parsing compiles to a "less than" rule that fires exactly when the price is strictly less than T, returning the "less than" template |
| `Rules.MalformedIsSilent` | echo.py:58-71 | an empty string, an unparsable remainder, a lone operator whose empty remainder does not parse, and an unknown first character each give a rule that returns nothing at every price |
| `Rules.ThresholdIsSilent` | echo.py:37-40 | a price equal to the threshold never fires, for either operator |
| `Rules.MessageShowsDirection` | echo.py:62-66 | the alert sentence determines the operator: sentences for the same symbol and price are equal exactly when the operators are, so the two templates differ |
| `Matcher.Compiled` | echo.py:90-92 | one rule per watch entry, and rule i is the compilation of entry i's `when` string |
| `Matcher.CompiledIsLocal` | echo.py:90-92 | rule i depends on entry i's `when` string alone, in any watch list |
| `Matcher.RowHits` | echo.py:95-99 | the pairs found for one listing all belong to that listing, lie below the scanned watch index and are hits |
| `Matcher.Hits` | echo.py:94-99 | every pair found for the first m listings names one of those listings and is a hit |
| `Matcher.Emit` | echo.py:106-109 | the line for a hit carries the watch entry's symbol and a price that satisfies the entry's comparison against its threshold |
| `Matcher.Match` | echo.py:90-110 | the array-and-nested-loop matcher prints exactly the lines of the specification `Alerts` |
| `Matcher.AlertsOfHits` | echo.py:94-110 | the lines printed for the first m listings are the lines of the pairs found, one per pair, in the same order |
| `Matcher.RowAlertsOfHits` | echo.py:95-110 | the lines printed for one listing are the lines of that listing's pairs, in watch order |
| `Matcher.RowHitsExact` | echo.py:95-99 | a pair is found for listing j below watch index n exactly when it is a hit of listing j with watch index below n |
| `Matcher.HitsExact` | echo.py:94-99 | a pair is found among the first m listings exactly when it is a hit of one of them |
| `Matcher.RowHitsOrdered` | echo.py:95 | the pairs of one listing come in strictly increasing watch order |
| `Matcher.HitsOrdered` | echo.py:94-95 | all pairs come in strictly increasing (listing, watch index) order, so none is reported twice |
| `Matcher.AlertsExact` | echo.py:90-110 | the printed lines are the lines of exactly the pairs whose symbols agree and whose rule fires, in listing order, then watch order |
| `Matcher.UnmatchedWatchIsSilent` | echo.py:96-97 | a watch entry whose symbol no listing carries takes part in no pair |
| `Matcher.DuplicateWatchesEachAlert` | echo.py:94-110 | two distinct identical watch entries are both found for a listing that triggers one of them, and their two lines are identical |
| `Entry.Run` | echo.py:74-110 | the exit status follows `Decide`; the listings are requested only with a non-empty key and decodable input; lines are printed only by a run that completes, and then they are `Alerts` |
| `Entry.StatusCases` | echo.py:74-88 | status 1 exactly for a missing or empty key or undecodable input, 2 exactly for an empty listing collection after those checks, 0 otherwise; without a key the outcome ignores input and listings |
| `Entry.BtcExample` | echo.py:90-110 | watching BTC for `>50000`, a BTC listing at 51234.5678 prints exactly one "more than" line and one at 49000 prints nothing |

## Left out

- `currencies()` (echo.py:43-55): the HTTP session, headers, JSON decoding and the caught network errors are not modelled; `Entry.Run` takes the fetched listings as an input that is empty when the fetch failed or the response had no `data`. Exceptions the script does not catch there (an undecodable response body) are not modelled.
- Decoding standard input with `hjson`, `os.getenv` and `logging` are foreign calls: the key is an optional string, the decoded input is `Decoded(watching)` or `SyntaxError`, and the log lines (including the one `cmp_function` writes for a malformed string) are not produced.
- Python's `float()` grammar (`inf`, `nan`, whitespace, underscores) is abstracted as the parameter `parse`, which yields a real or fails. Rules.Compile: thresholds and prices are reals, so a `nan` threshold (which never fires in Python) and infinite thresholds are not modelled.
- The `{price:.4f}` rendering of the price is a parameter of `Matcher.Render`, not modelled.
- Malformed input records are not modelled: the record types always carry their fields, with a string `when` and a real price. In the script:
  - a listing without `symbol` raises `KeyError` at echo.py:96 as soon as the watch list is non-empty;
  - a listing without `quote`, `USD` or `price` raises `KeyError` at echo.py:99 only when some watch entry has its symbol, and is passed over otherwise;
  - a watch entry without `symbol` raises `KeyError` at echo.py:96 once there is a listing, and one without `when` raises `KeyError` at echo.py:92 once the listings are non-empty;
  - a decoded watch list that is not a list is iterated as it is: an empty dict or string runs to status 0 with no output, and other shapes raise `TypeError` at echo.py:90-92 (in `len` or when an entry is indexed);
  - a `when` that is a number, null or a list raises `TypeError` at echo.py:60 (uncaught there), and a price that is null or a string raises `TypeError` in the comparison at echo.py:38-39 when a rule with a threshold meets it.
- The process exit itself (`sys.exit`) and the "Terminating..." log line are represented only by the status `Entry.Run` returns.
