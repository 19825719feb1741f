# ResolveIP resolution pipeline in Dafny

This project models the bulk DNS resolution utility `resolveip.py` of WAES
(Web Auto Enum & Scanner) and proves properties of the model. It covers:

- reading the domain list: the lines of the input file are stripped of
  surrounding whitespace (Python's `str.strip`, `text.dfy`), and blank lines
  are dropped;
- `resolve_single`, which turns the host lookup of one domain into a
  `(domain, ip, error)` triple (`resolver.dfy`). The lookup
  (`socket.gethostbyname` and the exceptions it raises) is an oracle passed in
  as a function, `string -> LookupOutcome`. Its outcome is an address, a
  `gaierror` message, a timeout, or any other exception's message;
- `resolve_from_file`, which submits every domain to a worker pool and keeps
  each result as it completes when errors are shown or an ip is present
  (`batch.dfy`). The pool is a sequential loop that takes the outstanding
  lookups in any order (`:|` picks the next one). Its contract states both
  the completion order it used and multiset equality with the in-order
  results;
- the "Resolved X/Y domains" summary count of `main` (`summary.dfy`);
- the plain, CSV and JSON renderers, as the lines printed, the field lists
  handed to `csv.writer` and the dictionaries handed to `json.dumps`
  (`render.dfy`);
- properties of the whole pipeline and the worked scenarios
  (`pipeline.dfy`).

One subtle point is modelled exactly. The filter tests `ip is not None`,
but the renderers test truthiness. So a failure whose `str(e)` is empty is
kept with errors shown, yet normal (not IP-only) plain output prints
nothing for it, IP-only output prints `-`, and JSON gives it no `error`
key (`Pipeline.EmptyErrorKeptButHidden`).

Some consequences of the code that a reader might not expect:

- A blank line is never submitted, so the lines `a.invalid`, blank,
  `  b.invalid  ` give two results when errors are shown
  (`Pipeline.FailingNamesAroundBlankLine`).
- Normal (not IP-only) plain output prints nothing for a result with
  neither a non-empty ip nor a non-empty error (`Render.PlainLineCount`);
  IP-only output prints `-` for it (`Render.IpOnlyLinePerResult`).
- The thread count goes to `ThreadPoolExecutor` unchanged; it is not
  clamped.
- Errors are plain text, so an unexpected exception whose message is
  `Timeout` reads the same as a timeout (`Resolver.ErrorTextAmbiguous`).

Some helpers carry no contract of their own and are covered by their
callers' rows below: `Text.IsSpace` is the set of characters Python's
`str.isspace` accepts (resolveip.py:36, 76); `Batch.Kept` is the filter
of resolveip.py:96; `Resolver.Classify` is the outcome table of
resolveip.py:44-51; `Render.PlainLines` is the per-result rule of
resolveip.py:105-114; `Render.CsvRow` is the row of resolveip.py:124.

## Model

| member | source | states |
|---|---|---|
| Text.Strip | resolveip.py:36 | the result has no leading and no trailing whitespace |
| Text.StripShape | resolveip.py:36 | the result is the slice of the input between its longest whitespace prefix and a whitespace suffix; it is empty iff the input is all whitespace |
| Text.StripUnique | resolveip.py:36 | any non-empty stripped slice with only whitespace around it is exactly what `strip` returns |
| Text.StripStripped | resolveip.py:76 | a string without outer whitespace is left unchanged |
| Text.StripIdempotent | resolveip.py:36 | stripping twice equals stripping once |
| Resolver.ResolveSingle | resolveip.py:25-51 | the first component is the stripped domain; exactly one of ip and error is set; an empty domain gives "Empty domain"; otherwise an address gives the ip, a gaierror gives "DNS error: " + message, a timeout gives "Timeout", any other failure its own message |
| Resolver.EmptyDomainSkipsLookup | resolveip.py:36-38 | for a whitespace-only domain the result is `("", None, "Empty domain")` whatever the lookup does, so the lookup is never consulted |
| Resolver.LookupOfStrippedDomainOnly | resolveip.py:36-44 | the result depends on the lookup only through its answer for the stripped domain |
| Resolver.ResolvedIffAddress | resolveip.py:43-51 | the ip is set iff the domain is non-empty and its lookup returned an address |
| Resolver.ErrorTextAmbiguous | resolveip.py:46-51 | an unexpected failure with message "Timeout" or "DNS error: m" yields the same triple as a timeout or a gaierror with message m |
| Batch.Domains | resolveip.py:76 | at most one domain per line; every domain is non-empty and has no leading or trailing whitespace |
| Batch.DomainsAppend | resolveip.py:76 | the domain list of concatenated line lists is the concatenation of their domain lists, so file order is kept |
| Batch.DomainsSingle | resolveip.py:76 | one line contributes its stripped form, or nothing if that is empty |
| Batch.DomainsMembership | resolveip.py:76 | a string is a domain iff it is non-empty and the stripped form of some line |
| Batch.DomainsOfDomains | resolveip.py:76 | reading a domain list back as lines gives the same list |
| Batch.BatchDomainsReachLookup | resolveip.py:89-92 | each listed domain is looked up as it is, and the "Empty domain" branch is never taken in the batch |
| Batch.Collected | resolveip.py:94-97 | at most one result per domain, exactly one each when errors are shown, and every kept result passes the filter |
| Batch.Step | resolveip.py:95-97 | one completed lookup adds its own resolution exactly when it passes `show_errors or ip is not None`, and nothing otherwise |
| Batch.CollectedAppend | resolveip.py:94-97 | results of two domain lists taken in turn are the two result lists in turn |
| Batch.CollectedPermutation | resolveip.py:88-97 | domain lists that are permutations of each other give results that are permutations of each other, so completion order does not change the multiset of results |
| Batch.CollectedMembership | resolveip.py:96-97 | a result is collected iff it is the resolution of one of the domains and passes the filter (with errors hidden: iff its ip is set) |
| Batch.ResolveAll | resolveip.py:88-97 | every submitted domain is completed exactly once, in some order; the results are the filtered resolutions in that order, and a permutation of the in-order filtered resolutions |
| Batch.ResolveFromFile | resolveip.py:72-99 | a missing or unreadable file aborts with status 1 and its message before any lookup; an empty domain list gives no lookups, no results and the warning; otherwise the results are a permutation of the filtered resolutions of the domain list; with errors shown there is one per domain, and without them every result has an ip |
| Summary.SuccessCount | resolveip.py:217 | the count of results with a non-empty ip never exceeds the number of results |
| Summary.SuccessCountFull | resolveip.py:217 | the count equals the total iff every result has a non-empty ip |
| Summary.SuccessCountAppend | resolveip.py:217 | the count of concatenated result lists is the sum of their counts |
| Summary.SuccessCountPermutation | resolveip.py:217 | the count does not depend on the order of the results |
| Summary.SuccessCountIgnoresFilter | resolveip.py:209-217 | showing or hiding failed resolutions does not change the count |
| Summary.SummaryOfBatch | resolveip.py:209-218 | for any completion order and either filter setting, the count equals the count of the in-order results with errors hidden; with errors shown the total is the number of domains |
| Render.OutputPlain | resolveip.py:102-114 | the printed lines are the per-result lines, one result after the other |
| Render.PlainTextAppend | resolveip.py:104 | the output for concatenated result lists is the concatenation of their outputs |
| Render.IpOnlyLinePerResult | resolveip.py:105-109 | IP-only mode prints exactly one line per result, in order: its ip when non-empty, "-" otherwise |
| Render.PlainLineCount | resolveip.py:110-114 | normal mode prints at most one line per result, and one for each exactly when every result has a non-empty ip or error |
| Render.OutputCsv | resolveip.py:117-124 | the header `domain,ip,error` comes first, then one row per result in order, each being the domain, the ip or "", and the error or ""; every row, header included, has three fields |
| Render.CsvRoundTrip | resolveip.py:124 | a row reads back as its result iff neither ip nor error is the empty string |
| Render.JsonEntry | resolveip.py:133-139 | the entry's keys are `domain`, plus `ip` iff the ip is non-empty, plus `error` iff the error is non-empty, each mapped to the result's value |
| Render.OutputJson | resolveip.py:129-139 | one entry per result, in order |
| Render.JsonRoundTrip | resolveip.py:133-139 | every entry reads back; it reads back as its result iff neither ip nor error is the empty string |
| Render.CsvAgreesWithJson | resolveip.py:124-139 | a CSV row and a JSON entry read back to the same result |
| Pipeline.EmptyErrorKeptButHidden | resolveip.py:94-114 | a failure with empty message is kept with errors shown, but normal plain output prints nothing for it, IP-only prints "-", JSON has only `domain`, CSV has two empty fields |
| Pipeline.BareNameKept | resolveip.py:76 | a line holding a bare name without outer whitespace becomes exactly that domain |
| Pipeline.BlankLineDropped | resolveip.py:76 | the lines `a.invalid`, blank, `  b.invalid  ` give the domains `a.invalid`, `b.invalid` |
| Pipeline.BothNamesFail | resolveip.py:46-47 | two names whose lookups raise gaierror, each with its own message, give two `DNS error: ` results carrying those messages with errors shown, and nothing otherwise |
| Pipeline.FailingNamesAroundBlankLine | resolveip.py:76-97 | for those three lines, any completion order gives two DNS-error results with errors shown and none without |
| Pipeline.ResolvedNameIpOnly | resolveip.py:105-107 | `example.com` resolving to `93.184.216.34` prints exactly `93.184.216.34` in IP-only mode, whether errors are shown or not, for any completion order |

## Left out

- The host lookup `socket.gethostbyname` is not modelled. It is the oracle parameter, so nothing about DNS behaviour is stated.
- The oracle is one fixed, total function for the whole run. Two copies of a duplicated line therefore always get the same outcome, and no outcome depends on timing or on the thread count. The multiset and order-independence statements (`Batch.ResolveAll`, `Batch.CollectedPermutation`, `Batch.ResolveFromFile`, `Summary.SummaryOfBatch`) hold relative to that fixed oracle; a real lookup can answer two copies differently, for example under round-robin DNS or load-dependent timeouts.
- The timeout is not modelled. `socket.setdefaulttimeout` sets process-wide state that concurrent workers race on, and the timeout is a float. The oracle's `TimedOut` outcome stands for its effect.
- Resolver.ResolveSingle: never fails in the model, but `socket.setdefaulttimeout(timeout)` (resolveip.py:41) sits outside the `try`. A negative or NaN timeout raises `ValueError` in every worker that reaches it, `future.result()` (resolveip.py:95) re-raises it, and the whole batch aborts with no results. That path is not modelled.
- The thread count is not modelled. `ThreadPoolExecutor` and `as_completed` become a sequential loop whose completion order is arbitrary, and order independence is stated as multiset equality. Concurrency, the bound on lookups in flight, and the `ValueError` the executor raises for a thread count below 1 are not modelled.
- File opening and decoding are not modelled. The file's content is a `FileRead` value: the lines as iterated, not found, or unreadable with a reason. A decoding error while iterating (not an `IOError`, so the code does not catch it) is not modelled. `sys.exit(1)` becomes the `Aborted(1, message)` outcome.
- Printing to stdout and stderr is not modelled. The renderers return their lines, rows and entries. Only the messages that decide the outcome appear: the two fatal file errors and the "no domains" warning.
- `csv.writer` quoting and `json.dumps` serialisation are library code. Only the field lists and the key sets handed to them are modelled.
- The `argparse` wiring in `main` is not modelled: the format dispatch, the quiet flag and the progress messages. The summary's count is modelled; its message text is not.
- `tests/demo_app/vulnerable_app.py` is an HTTP test fixture unrelated to the resolver and is not part of this model.
