# Invoice conversions and rows of slip39's invoice artifact, in Dafny

This project models the core of `slip39/invoice/artifact.py`: how an invoice
works out the currency conversion ratios it needs, and how it turns its line
items into rows with running totals in every invoice currency.

- **The conversions dict.** This maps an ordered currency pair (a, b) to "units of b per unit
  of a", or to None for a pair that is wanted but not yet known. It is a key
  sequence in insertion order next to a map (`Ratios.Conv`), because the
  order of a Python dict decides how the deduction loops run.
- **`conversions_remaining`.** One call of it is specified as a function
  (`Ratios.FirstPass`, `Remaining.Remaining`). The same call is implemented
  in place by the class `Resolver.Conversions`, whose methods are proved
  equal to the specification.
- **Deduction.** The first pass inverts truthy ratios and composes single
  hops. It never changes a known ratio. Every ratio it adds is an inversion
  or a composition. It reports an update exactly when it learned a pair,
  and it stays quiet exactly when the dict is closed under these two rules.
- **The loops of `Invoice.__init__`.** These call `conversions_remaining`
  and the price oracle, and they terminate.
- **Building an invoice** (`Invoices.NewInvoice`). It binds accounts to
  currencies, binds proxy tokens to the Ethereum account, seeds every wanted
  pair and resolves. A built invoice has a known ratio from every seeded line
  symbol (`cryptocurrency_symbol`, e.g. BTC) to every other invoice currency.
  The rows convert from a line's `tokeninfo` symbol instead (e.g. WBTC). When
  the two agree on every line, the invoice is Ready: every ratio its rows
  look up is known. Otherwise iterating it may raise at line 478
  (`Invoices.Iterate`).
- **Rows** (`Invoice.__iter__`). Each line is rounded and then added, converted, to
  per-currency running totals. The in-place loop is proved equal to a
  recursive definition of the totals.
- **The rest of the core.** The column headers, the pages, the column
  selection of `tables`, the grid of `conversions_table`, `LineItem.net` and
  the date part of `datetime_advance`.

Numbers are exact reals: the source computes with `int`, `float` and
`Fraction`, and the model takes each value exactly. Outside lookups are
inputs to the model:

- `tokeninfo` gives each line's token symbol and decimals, and each
  currency's proxy token;
- `cryptocurrency_symbol` gives each line's seeded symbol;
- `tokenprices` becomes a finite map from symbol to quote;
- `round` is a function parameter;
- `INVOICE_CURRENCY` and `INVOICE_ROWS` are parameters.

Three behaviours of the code worth knowing:

- **Pivot deduction.** Line 177 stores (a,b) as the product (a,x) * (b,x)
  of the two ratios to the pivot x. `Remaining.PivotFaults` and
  `Remaining.RemainingFaults` show that this store never completes. After a
  quiet first pass, the pivot search only finds a wanted diagonal pair
  (a,a), and lines 176-179 then raise: either the two pairs share two
  symbols (`x, = x_s` fails) or a factor is None.
- **A tax rate of exactly 1** falls through both branches of `LineItem.net`
  (lines 91-99) and charges no tax. `Pricing.LineNet` does the same.
- **Zero ratios.** A zero ratio is never inverted, because line 148 tests
  its truthiness, but it still composes, because line 152 tests only for
  None.

## Model

| member | source | states |
|---|---|---|
| Strings.Sort | slip39/invoice/artifact.py:185 | `sorted(...)` gives an ascending arrangement (by Python's code-point order) of exactly the same elements, with the same multiplicities |
| Strings.SortDistinct | slip39/invoice/artifact.py:105 | sorting the members of a set leaves every member once |
| Strings.Dedup | slip39/invoice/artifact.py:105 | `set(...)` of a list holds every element of the list once, and nothing else |
| Strings.Le | slip39/invoice/artifact.py:185 | definition, no contract: Python's `<=` on `str`, code point by code point; `Strings.Sort` relies on it being a total order |
| Ratios.Assign | slip39/invoice/artifact.py:149 | `conversions[k] = v`: afterwards k reads v and every other pair reads as before; an existing key keeps its place and a new key goes last |
| Ratios.AssignValid | slip39/invoice/artifact.py:149 | an assignment keeps every key once and the key list equal to the dict's keys |
| Ratios.AssignRatio | slip39/invoice/artifact.py:159 | storing a ratio writes no None and forgets no known pair |
| Ratios.AssignUnknown | slip39/invoice/artifact.py:149 | storing a ratio for an unknown pair keeps every known ratio and adds exactly that pair to the known pairs |
| Ratios.Invert | slip39/invoice/artifact.py:148-151 | definition, no contract: a truthy ratio (a,b) = r fills an unknown (b,a) with 1/r and sets `updated` (properties: `Ratios.InvertKeeps`) |
| Ratios.Compose | slip39/invoice/artifact.py:155-161 | definition, no contract: when b == a2, a != b2, r2 is not None and (a,b2) is unknown, (a,b2) becomes r * r2 and `updated` is set (properties: `Ratios.ComposeKeeps`, `Ratios.ComposeJustified`) |
| Ratios.ComposeAll | slip39/invoice/artifact.py:154-161 | definition, no contract: the inner loop over a snapshot of the dict (properties: `Ratios.ComposeAllKeeps`, `Ratios.ComposeAllReaches`) |
| Ratios.Visit | slip39/invoice/artifact.py:147-161 | definition, no contract: one outer iteration, the inversion then, for a non-None ratio, the inner loop over a snapshot taken now (properties: `Ratios.VisitReaches`) |
| Ratios.VisitAll | slip39/invoice/artifact.py:147-161 | definition, no contract: the outer loop over the snapshot taken at line 147 (properties: `Ratios.VisitAllKeeps`, `Ratios.VisitAllGrows`) |
| Ratios.FirstPass | slip39/invoice/artifact.py:145-161 | definition, no contract: the whole first pass (properties: `Ratios.FirstPassPreserves`, `Ratios.FirstPassReaches`, `Ratios.FirstPassQuietIffClosed`) |
| Ratios.ComposeJustified | slip39/invoice/artifact.py:159 | the ratio stored at line 159 is the product of the two known ratios (a,b) and (b,b2) it composes |
| Ratios.InvertKeeps | slip39/invoice/artifact.py:148-151 | the inversion step keeps the dict well formed, keeps every known ratio, and adds only the inverse of a known non-zero ratio |
| Ratios.ComposeKeeps | slip39/invoice/artifact.py:154-161 | one inner composition step keeps the dict well formed and every known ratio, and adds only a justified product |
| Ratios.ComposeAllKeeps | slip39/invoice/artifact.py:154-161 | the whole inner loop keeps the same invariant |
| Ratios.VisitAllKeeps | slip39/invoice/artifact.py:147-161 | the outer loop keeps the same invariant over any prefix of its snapshot |
| Ratios.ComposeAllGrows | slip39/invoice/artifact.py:154-161 | later steps of the inner loop never change a ratio that earlier steps made known |
| Ratios.VisitAllGrows | slip39/invoice/artifact.py:147-161 | later outer iterations never change a ratio that earlier ones made known |
| Ratios.ComposeAllReaches | slip39/invoice/artifact.py:154-161 | after the inner loop for (a,b), (a,c) is known for every known (b,c) of its snapshot with a != c |
| Ratios.VisitReaches | slip39/invoice/artifact.py:147-161 | visiting (a,b) makes (b,a) known when (a,b) is truthy, and (a,c) known for every known (b,c) of the starting dict with a != c |
| Ratios.FirstPassReachesAt | slip39/invoice/artifact.py:147-161 | what visiting the key at position i guarantees survives to the end of the pass |
| Ratios.FirstPassPreserves | slip39/invoice/artifact.py:145-163 | the first pass keeps every known ratio and every key; it uses only symbols already present; every ratio it adds is the inverse of a known non-zero ratio or the product of two known ratios; `updated` is set only when a new pair was learned, and otherwise the dict is unchanged |
| Ratios.FirstPassReaches | slip39/invoice/artifact.py:147-161 | after the first pass, (b,a) is known for every truthy (a,b), and (a,c) is known for every two known (a,b), (b,c) with a != c |
| Ratios.QuietComposeAll | slip39/invoice/artifact.py:154-161 | an inner loop that set no flag changed nothing, because none of its guards fired |
| Ratios.QuietVisitAll | slip39/invoice/artifact.py:147-163 | an outer loop that set no flag left the dict as it was, and none of its guards fired |
| Ratios.ClosedComposeAll | slip39/invoice/artifact.py:154-161 | on a closed dict the inner loop changes nothing |
| Ratios.ClosedVisitAll | slip39/invoice/artifact.py:147-161 | on a closed dict the outer loop changes nothing |
| Ratios.FirstPassQuietIffClosed | slip39/invoice/artifact.py:145-163 | the first pass reports no update exactly when the dict is already closed under inversion of truthy ratios and single-hop composition |
| Remaining.FindC3 | slip39/invoice/artifact.py:171-172 | the first position whose key can serve as c3 (another truthy pair containing b that shares a symbol with c2), with none before it; None exactly when there is none |
| Remaining.FindC2 | slip39/invoice/artifact.py:169-172 | the first position j, from j0 on, whose key is a truthy c2 containing a and has a c3; no earlier position qualifies; the c3 is the first one FindC3 finds for it; None exactly when no pair of keys forms a pivot |
| Remaining.FindPivot | slip39/invoice/artifact.py:166-172 | a wanted (None) pair that has a pivot, with the c2 and c3 that FindC2 finds first for it; None exactly when no wanted pair has one |
| Remaining.FindPivotFirst | slip39/invoice/artifact.py:166-172 | the pair FindPivot returns is the first in key order: every earlier wanted pair has no c2 with a c3 |
| Remaining.ApplyPivot | slip39/invoice/artifact.py:176-180 | definition, no contract: take the shared symbol x, store (a,b) = (a,x) * (b,x) and (b,a) as its inverse, or raise ValueError, KeyError, TypeError or ZeroDivisionError as Python would (properties: `Remaining.PivotFaults`) |
| Remaining.UnsetLabels | slip39/invoice/artifact.py:185 | the labels `a/b` of exactly the pairs still None, at most one per key |
| Remaining.ViaLabels | slip39/invoice/artifact.py:188 | the labels `a/b` of exactly the pairs with a ratio above 1, at most one per key |
| Remaining.Report | slip39/invoice/artifact.py:184-193 | False exactly when no pair is None; otherwise the message, raised under `verify` and returned otherwise, with the None labels and the above-1 labels each sorted |
| Remaining.Remaining | slip39/invoice/artifact.py:126-193 | definition, no contract: one whole call, the first pass and then, when it was quiet, the pivot branch or the report (properties: `Remaining.RemainingUpdated`, `Remaining.RemainingDone`, `Remaining.RemainingStuck`, `Remaining.RemainingFaults`) |
| Remaining.UnsetLabelsEmpty | slip39/invoice/artifact.py:185-187 | the labels of line 185 are empty exactly when no key is None |
| Remaining.NoPivotOffDiagonal | slip39/invoice/artifact.py:166-172 | in a closed dict no wanted pair (a,b) with a != b has a pivot |
| Remaining.PivotFaults | slip39/invoice/artifact.py:164-180 | after a quiet first pass, any pivot found belongs to a wanted pair (a,a), and lines 176-179 then raise instead of storing |
| Remaining.RemainingUpdated | slip39/invoice/artifact.py:145-182 | the call returns True exactly when its first pass updated the dict, and then leaves the first pass's result; every other result, an exception included, leaves the dict unchanged |
| Remaining.AllKnownIffNoLabels | slip39/invoice/artifact.py:185-187 | the sorted labels of the None pairs are empty exactly when every value is a ratio |
| Remaining.NoPivotWhenKnown | slip39/invoice/artifact.py:166-168 | with no None value, the pivot search finds nothing |
| Remaining.RemainingDone | slip39/invoice/artifact.py:162-187 | the call returns False exactly when the first pass has nothing to add and no value is None |
| Remaining.RemainingStuck | slip39/invoice/artifact.py:184-193 | the message is returned, or raised under `verify`, exactly when the dict is quiet, has no pivot and some value is None; it names the sorted None pairs and the sorted pairs with ratios above 1 |
| Remaining.RemainingFaults | slip39/invoice/artifact.py:164-180 | the call raises only for a dict that wants a diagonal pair (a,a) and has a quiet first pass, and it then leaves the dict unchanged |
| Remaining.DoneIsFixpoint | slip39/invoice/artifact.py:126-193 | after False the dict is closed with every pair known, and calling again changes nothing and returns False again |
| Remaining.RemainingProgress | slip39/invoice/artifact.py:374 | every True result learns a new pair over the symbols already present and forgets none, so the count of pairs still to learn drops and `while conversions_remaining(...)` ends |
| Candidacy.Candidates | slip39/invoice/artifact.py:383-386 | definition, no contract: the symbols at the sides `Candidacy.Slots` lists, in that order, so the order and repeats of the candidates are those of the slots (`Candidacy.SlotsOrdered`) and their members those of `Candidacy.CandidatesMembers` |
| Candidacy.CandidatesMembers | slip39/invoice/artifact.py:383-386 | a symbol is a candidate exactly when it is not ETH and belongs to a pair still None |
| Candidacy.SlotsOffered | slip39/invoice/artifact.py:384-385 | the sides listed are exactly the sides, other than ETH, of the pairs still None |
| Candidacy.SlotsOrdered | slip39/invoice/artifact.py:385 | the sides are listed key by key in dict order, the first symbol of a key before its second, so each side once; a symbol therefore recurs once per None pair it is in |
| Resolver.StoreQuote | slip39/invoice/artifact.py:397-399 | the quote is stored for (c, two) and for (one, two), and no other pair changes |
| Resolver.StoreQuoteKeeps | slip39/invoice/artifact.py:393-399 | storing a quote keeps the dict well formed, forgets nothing, writes no None, and leaves that candidate with nothing more to gain |
| Resolver.PendingShrinks | slip39/invoice/artifact.py:387-400 | once a candidate is satisfied, and while ratios are only learned, fewer candidates are pending |
| Resolver.Wanted | slip39/invoice/artifact.py:393 | definition, no contract: the oracle prices the candidate c as (one, two), and (c, two) or (one, two) is still unknown |
| Resolver.Pending | slip39/invoice/artifact.py:384-393 | definition, no contract: the symbols, other than ETH, of pairs still None that the oracle could still usefully price (properties: `Resolver.PendingShrinks`) |
| Resolver.QuoteProgress | slip39/invoice/artifact.py:378-404 | each round that prices a candidate and then deduces leaves fewer candidates pending, so `while remaining` ends |
| Resolver.SetDefault | slip39/invoice/artifact.py:359 | definition, no contract: `setdefault(k, None)` (properties: `Resolver.SetDefaultKeeps`) |
| Resolver.SetDefaultKeeps | slip39/invoice/artifact.py:359 | `setdefault(k, None)` keeps the dict well formed, adds k when absent, and changes no value that `get` reads |
| Resolver.SeedRow | slip39/invoice/artifact.py:357-359 | definition, no contract: seed (ls, c) for every invoice currency c other than ls (properties: `Resolver.SeedRowKeeps`) |
| Resolver.SeedRowKeeps | slip39/invoice/artifact.py:357-359 | seeding one line symbol adds exactly its pairs with the other invoice currencies, and changes no value |
| Resolver.Seeded | slip39/invoice/artifact.py:356-359 | definition, no contract: seed every line symbol (properties: `Resolver.SeededKeeps`) |
| Resolver.SeededKeeps | slip39/invoice/artifact.py:356-359 | seeding adds exactly every (line symbol, other invoice currency) pair as a key, appends keys only, and keeps every known ratio |
| Resolver.Conversions.constructor | slip39/invoice/artifact.py:345-346 | the dict the caller passes in (an empty one when None) |
| Resolver.Conversions.Store | slip39/invoice/artifact.py:149 | in place, the dict becomes the assignment's result |
| Resolver.Conversions.Seed | slip39/invoice/artifact.py:356-359 | in place, the dict becomes the seeded dict |
| Resolver.Conversions.InvertFrom | slip39/invoice/artifact.py:148-151 | in place, the inversion step of the first pass |
| Resolver.Conversions.ComposeFrom | slip39/invoice/artifact.py:154-161 | in place, the inner loop over a snapshot taken when it starts |
| Resolver.Conversions.FirstPass | slip39/invoice/artifact.py:145-161 | in place, the first pass: the new dict and flag are the specification's, and the dict stays well formed with its keys extended |
| Resolver.Conversions.FindC3 | slip39/invoice/artifact.py:171-172 | the loop finds the specification's c3 |
| Resolver.Conversions.FindC2 | slip39/invoice/artifact.py:169-172 | the loop finds the specification's c2 and c3 |
| Resolver.Conversions.FindPivot | slip39/invoice/artifact.py:166-172 | the loops find the specification's pivot |
| Resolver.Conversions.ApplyPivot | slip39/invoice/artifact.py:176-180 | in place, the pivot store or the exception raised, leaving the dict as it was at the raise |
| Resolver.Conversions.Deduce | slip39/invoice/artifact.py:126-193 | in place, one whole call: the dict and the result are the specification's |
| Resolver.Conversions.DeduceAll | slip39/invoice/artifact.py:374-375 | the loop ends with False, a message, or an exception; it keeps every known ratio and turns no ratio back to None; after False the dict is closed with every pair known; after a message the dict is closed, has no pivot, and the message lists the sorted None pairs; after an exception the dict wants a diagonal pair (a,a) |
| Resolver.Conversions.PriceFirst | slip39/invoice/artifact.py:387-402 | candidates are tried in order; those the oracle cannot price or that gain nothing are skipped; the first that gains is stored; with none, nothing changes |
| Resolver.Conversions.Attempt | slip39/invoice/artifact.py:383-404 | one round either prices no candidate and changes nothing (no candidate gains from its quote), or prices one and deduces again, with fewer candidates pending; a message then lists the sorted None pairs, and an exception means a diagonal pair is wanted |
| Resolver.Conversions.Resolve | slip39/invoice/artifact.py:374-405 | ends; on success every pair is known and the dict is closed; when no candidate can be priced, it fails with the sorted labels of exactly the pairs still None, and no candidate would gain from a quote; a failure from the pivot branch leaves a wanted diagonal pair (a,a) |
| Pricing.LineNet | slip39/invoice/artifact.py:83-100 | the tax is added for a rate below 1 and included for a rate above 1; no tax (with zero taxes) when the rate is absent, zero or exactly 1; the stated percentages |
| Pricing.NetBase | slip39/invoice/artifact.py:89-100 | an added rate keeps units * price as the base and gives an amount of base * (1 + rate); an included rate leaves the amount equal to the base, and the net times the rate is the amount |
| Pricing.NetTaxBounded | slip39/invoice/artifact.py:91-99 | with a non-negative base and a positive rate, the tax lies between zero and the amount |
| Pricing.AddedExample | slip39/invoice/artifact.py:93-96 | checks one example: 198 units at 2.01 with 5% added give amount 417.879 and taxes 19.899 |
| Pricing.IncludedExample | slip39/invoice/artifact.py:97-99 | checks one example: a rate of 105/100 is included as 5% incl., with the included part as taxes |
| Calendar.DaysIn | slip39/invoice/artifact.py:805 | `monthrange`'s day count: 28 to 31, and 29 in February exactly in a leap year |
| Calendar.Advance | slip39/invoice/artifact.py:797-808 | zero years and months change nothing; otherwise the result is valid, lands on the month index of the sum, and clamps the day to that month's length; it fails exactly when the month falls below 1 (`monthrange` raises) or the year leaves 1-9999 (`replace` raises) |
| Calendar.AdvanceCompose | slip39/invoice/artifact.py:797-808 | with a day every month has, advancing by m1 and then by m2 months is advancing by m1 + m2 |
| Calendar.EndOfMonthExample | slip39/invoice/artifact.py:805-807 | checks four examples: 31 January plus one month is 29 February in a leap year and 28 otherwise, 30 November plus three months is 29 February, and a month below 1 raises |
| Columns.StripLeading | slip39/invoice/artifact.py:553 | removes exactly the leading underscores |
| Columns.StripTrailing | slip39/invoice/artifact.py:553 | removes exactly the trailing underscores |
| Columns.Lower | slip39/invoice/artifact.py:553 | lower-cases each character in place |
| Columns.CanonIgnoresLeading | slip39/invoice/artifact.py:551-553 | an added leading underscore does not change the canonical name |
| Columns.CanonIgnoresTrailing | slip39/invoice/artifact.py:551-553 | an added trailing underscore does not change the canonical name |
| Columns.CanonIdempotent | slip39/invoice/artifact.py:551-553 | canonicalising twice is canonicalising once |
| Columns.Where | slip39/invoice/artifact.py:571 | the increasing indices of exactly the headers the test accepts |
| Columns.IndexOf | slip39/invoice/artifact.py:559 | `list.index`: the first position holding the name, or the ValueError exactly when it is absent |
| Columns.CanonAll | slip39/invoice/artifact.py:555 | every header, canonicalised in place |
| Columns.Missing | slip39/invoice/artifact.py:560 | empty exactly when every name is found; every name whose canonical form is not a canonical header is in it, and every name in it is such a name |
| Columns.MissingOrder | slip39/invoice/artifact.py:560 | the t-th name of the message is the name at the t-th position whose canonical form has no header: the names come in the order given, with repeats |
| Columns.SelectListed | slip39/invoice/artifact.py:557-561 | for a list, each name selects the first header with its canonical form, in the list's order; if any name has none, the error names every such name |
| Columns.SelectContainer | slip39/invoice/artifact.py:562-565 | for a container, the headers whose canonical form is among the canonical names, in header order; the assertion fails exactly when none match |
| Columns.Select | slip39/invoice/artifact.py:555-571 | with no columns given, exactly the headers without a leading underscore; a predicate selects exactly the raw headers it accepts; lists and containers as above |
| Pages.PageSize | slip39/invoice/artifact.py:522 | a page closes at the row count, or at one row when the count is below 1 |
| Pages.Matches | slip39/invoice/artifact.py:512-517 | definition, no contract: `page_match`, true for no page, membership for a container, equality for a number |
| Pages.Chunks | slip39/invoice/artifact.py:519-527 | definition, no contract: the rows cut into full pages and a last partial one (properties: `Pages.ChunksFlatten`, `Pages.ChunksSizes`) |
| Pages.Keep | slip39/invoice/artifact.py:523-527 | definition, no contract: the pages whose numbers match (properties: `Pages.KeepAll`, `Pages.KeepOnly`, `Pages.KeepSnoc`) |
| Pages.ChunksFlatten | slip39/invoice/artifact.py:519-527 | the pages put back together are the rows, in order |
| Pages.ChunksSizes | slip39/invoice/artifact.py:519-527 | every page but the last holds exactly the row count, the last holds 1 to that many, and there are no pages exactly when there are no rows |
| Pages.KeepAll | slip39/invoice/artifact.py:512-514 | with no `page` argument every page is yielded |
| Pages.KeepOnly | slip39/invoice/artifact.py:512-517 | a single page number yields that page when it exists, and nothing otherwise |
| Pages.KeepSnoc | slip39/invoice/artifact.py:523-527 | a page is yielded exactly when its number matches |
| Pages.Paginate | slip39/invoice/artifact.py:519-527 | the loop yields the filtered pages of the rows |
| Grid.KeySymbols | slip39/invoice/artifact.py:105 | `sum(conversions.keys(), ())` holds exactly the symbols of the keys |
| Grid.CellOf | slip39/invoice/artifact.py:113-114 | definition, no contract: 1 on the diagonal, blank for a pair that is not a key, else the value (properties: `Grid.CellShows`) |
| Grid.DefaultSymbols | slip39/invoice/artifact.py:104-106 | the default symbols are sorted, each once, and exactly the symbols of the keys |
| Grid.Table | slip39/invoice/artifact.py:110-116 | one row per symbol, one cell per symbol: 1 on the diagonal, blank for a pair that is not a key, the value otherwise |
| Grid.CellShows | slip39/invoice/artifact.py:113-114 | off the diagonal, a cell is a number exactly for a known ratio, the missing marker exactly for a None, and blank exactly for a pair that is not a key |
| Grid.DefaultTableShowsAll | slip39/invoice/artifact.py:104-116 | every off-diagonal entry of the dict appears as a non-blank cell of the default table |
| Invoices.AddSymbol | slip39/invoice/artifact.py:317 | binding a symbol keeps every symbol once and adds a new symbol last |
| Invoices.BindClash | slip39/invoice/artifact.py:314-316 | the assertion fails only on the second of two accounts with one symbol |
| Invoices.BindAccounts | slip39/invoice/artifact.py:312-318 | succeeds exactly when no two accounts share a symbol, otherwise names a shared symbol; the currencies are every invoice currency plus every account symbol; each account is bound to its symbol, and every currency without an account to None |
| Invoices.ProxiedMembers | slip39/invoice/artifact.py:326-336 | a proxy symbol is added exactly when some currency has it as its proxy token |
| Invoices.AddProxies | slip39/invoice/artifact.py:326-336 | without an Ethereum account nothing changes; with one, every proxy token is added and bound to the Ethereum account, and every other currency keeps its account |
| Invoices.NewInvoice | slip39/invoice/artifact.py:292-410 | fails with a duplicate account exactly when two accounts share a symbol; a built invoice keeps its lines, holds every given currency (or the default) and every account symbol, each once, and knows a ratio from every seeded line symbol to every other invoice currency, with every pair known and the dict closed; it is Ready when each line's seeded symbol is its token symbol |
| Invoices.GapIn | slip39/invoice/artifact.py:473-478 | for one line, the first invoice currency whose ratio from the line's token symbol is missing or None; none exactly when every needed ratio is known |
| Invoices.FirstGap | slip39/invoice/artifact.py:461-478 | the first line whose conversion lookup raises, with the currency it raises on; none exactly when every ratio the rows need is known |
| Invoices.SortedCurrencies | slip39/invoice/artifact.py:431 | `sorted(self.currencies)`: ascending, and the same currencies |
| Invoices.Totals | slip39/invoice/artifact.py:494-498 | one running total per invoice currency |
| Invoices.AllRows | slip39/invoice/artifact.py:461-498 | one row per line |
| Invoices.AddTo | slip39/invoice/artifact.py:473-479 | adding line i to one more currency: that currency's totals become its totals through line i, and the others keep theirs |
| Invoices.AddLine | slip39/invoice/artifact.py:473-479 | after the currency loop, the `tot` and `tax` dicts hold the totals through line i in every currency |
| Invoices.TotalsOf | slip39/invoice/artifact.py:494-498 | the totals of the dict, one per symbol, in the order given |
| Invoices.TotalsOfAt | slip39/invoice/artifact.py:494-498 | dicts holding the totals through line n give, in sorted currency order, the totals of the row of line n |
| Invoices.RowOf | slip39/invoice/artifact.py:480-498 | the tuple yielded for line i is the row the specification defines |
| Invoices.NextRow | slip39/invoice/artifact.py:462-498 | one loop iteration yields the row of line i and leaves the totals through line i |
| Invoices.Rows | slip39/invoice/artifact.py:454-498 | the generator yields the rows of the specification, in line order |
| Invoices.Iterate | slip39/invoice/artifact.py:461-498 | iterating the invoice yields all the rows exactly when it is Ready; otherwise it raises at the first line with a missing or None ratio |
| Invoices.RunningTotals | slip39/invoice/artifact.py:473-479 | each row's total and taxes in a currency are the previous row's plus its own line's rounded amount and taxes, converted at the resolved ratio (or unconverted in the line's own currency) |
| Invoices.RowNet | slip39/invoice/artifact.py:466-471 | a row's net is its rounded amount less its rounded taxes, both rounded to the line's decimals |
| Invoices.TotalsGrow | slip39/invoice/artifact.py:473-479 | with non-negative amounts and ratios, the running totals never decrease |
| Invoices.HeadersLabelRows | slip39/invoice/artifact.py:429-435 | a row has one field per header, and the header over each running total or tax names that total's currency |
| Invoices.FixedHeadersShown | slip39/invoice/artifact.py:415-428 | of the fixed headers, exactly Description, Units, Price, Tax %, Taxes, Net, Amount and Currency are shown by default |
| Invoices.HeadersHidden | slip39/invoice/artifact.py:415-435 | the fixed headers come first, and every total and tax header is hidden by default |
| Invoices.DefaultColumns | slip39/invoice/artifact.py:569-571 | by default the tables show exactly the eight visible fixed columns, whatever the currencies |
| Invoices.InvoicePages | slip39/invoice/artifact.py:500-527 | the pages of the invoice's rows; without a filter, the pages put back together are all the rows in order |
| Invoices.LineCurrency | slip39/invoice/artifact.py:462 | definition, no contract: `line.currency or INVOICE_CURRENCY` |
| Invoices.LineDecimals | slip39/invoice/artifact.py:467 | definition, no contract: the line's own decimals, or the token's decimals floor-divided by 3 |
| Invoices.Rounded | slip39/invoice/artifact.py:463-471 | definition, no contract: the line's amount and taxes, rounded to its decimals (properties: `Invoices.RowNet`) |
| Invoices.Converted | slip39/invoice/artifact.py:473-479 | definition, no contract: a line value unchanged in its own currency, else times the ratio from its token symbol (properties: `Invoices.RunningTotals`) |
| Invoices.Total | slip39/invoice/artifact.py:454-479 | definition, no contract: the running total in one currency after the first n lines (properties: `Invoices.RunningTotals`, `Invoices.TotalsGrow`) |
| Invoices.TotalsAt | slip39/invoice/artifact.py:454-479 | definition, no contract: the `tot` and `tax` dicts hold the running totals after n lines (kept by `Invoices.AddLine`) |
| Invoices.RowAt | slip39/invoice/artifact.py:480-498 | definition, no contract: the tuple yielded for line i (properties: `Invoices.RowNet`, `Invoices.RunningTotals`, `Invoices.HeadersLabelRows`) |
| Invoices.Headers | slip39/invoice/artifact.py:412-435 | definition, no contract: the fixed headers, then a total and a tax header per sorted currency (properties: `Invoices.HeadersLabelRows`, `Invoices.HeadersHidden`, `Invoices.FixedHeadersShown`) |

## Left out

- **I/O and lookups.** Logging, `print` and the Web3 lookups are left out. The results of `tokeninfo`, `tokenprices` and `cryptocurrency_symbol` are inputs. A symbol the oracle map lacks is a `tokenprices` call that raised.
- **Naming currencies.** `cryptocurrency_symbol`, `cryptocurrency_proxy` and `cryptocurrency_known` turn names into symbols. They are not part of this model: currencies, accounts and lines are given by symbol.
- **The alias table.** Lines 364-370 fill `currencies_proxy` with aliases, and their assertion on incompatible aliases is not modelled. The table is not used by the rows.
- **Iteration order.** The source iterates Python sets in their own order; the model uses first-insertion order. Sorted outputs (headers, rows, labels) do not depend on it. Which candidate line 387 tries first does depend on it.
- **Aliasing.** The caller's `conversions` dict is updated in place by the source. The model copies it into a fresh object, so aliasing with the caller is not captured.
- **Number formatting.** `commas`, the `f'{…}'` formatting of percentages and ratios, and `tabulate` are left out. The messages carry the sorted label lists instead of their text.
- **Numbers.** Floats are modelled as exact reals, and `round` is a parameter.
- **Defaults.** `INVOICE_CURRENCY` and `INVOICE_ROWS` are parameters.
- **Time.** The `timedelta` part of `datetime_advance` (days, hours, minutes, seconds) and the time of day are left out; the model covers the date.
- **Tables.** The rendering part of `tables` is left out: subtotals, totals, decimals and the stripping of `_` from shown headers. The token object `line_curr` in each row is left out of `Invoices.Row`.
- **Lower-casing.** `str.lower` is modelled on A-Z only.
- **The `columns` argument.** A string `columns` argument is not modelled; it would be read as a container of characters.
- Invoices.Iterate: the rows yielded before the line that raises are not returned with the error; the generator's partial output is not modelled.
- Invoices.Rows: requires Ready; the raising path of `__iter__` is `Invoices.Iterate`.
- Invoices.InvoicePages: requires Ready; the pages yielded before `__iter__` raises are not modelled.
