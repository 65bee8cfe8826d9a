/**
  The invoice of slip39/invoice/artifact.py: building it (`Invoice.__init__`,
  lines 250-410: accounts bound to currencies, the wanted conversions seeded
  and resolved), its rows with running totals in every invoice currency
  (`Invoice.__iter__`, lines 437-498), its column headers (lines 412-435)
  and its pages (lines 500-527).

  What the source asks of outside code is an input here: each line's token
  symbol and decimals (`tokeninfo`), the proxy token of each currency, the
  price oracle, and the rounding function.
 */
module Invoices {
  import opened Options
  import opened Strings
  import opened Ratios
  import opened Remaining
  import opened Resolver
  import opened Pricing
  import opened Columns
  import opened Pages

  datatype Account = Account(symbol: Symbol, address: string)

  /**
    `currencies_account`: each invoice currency with its account or None.
    The symbols are kept in the order they were first added; the source
    holds them in a set and iterates it in its own order.
   */
  datatype Binding = Binding(order: seq<Symbol>, account: map<Symbol, Option<Account>>)

  ghost predicate WellBound(b: Binding)
  {
    Distinct(b.order) && forall s :: s in b.account <==> s in b.order
  }

  function AccountSymbols(accounts: seq<Account>): set<Symbol>
  {
    set a | a in accounts :: a.symbol
  }

  /** No two accounts for one symbol. */
  predicate DistinctSymbols(accounts: seq<Account>)
  {
    forall i, j :: 0 <= i < j < |accounts| ==> accounts[i].symbol != accounts[j].symbol
  }

  datatype InitError = DuplicateAccount(symbol: Symbol) | Resolution(error: ResolveError)

  lemma AccountSymbolsSnoc(accounts: seq<Account>, i: nat)
    requires i < |accounts|
    ensures AccountSymbols(accounts[..i + 1]) == AccountSymbols(accounts[..i]) + {accounts[i].symbol}
  {
    assert accounts[..i + 1] == accounts[..i] + [accounts[i]];
  }

  /**
    Binding a symbol in `currencies_account` keeps every symbol once, and
    the order of first insertion: a new symbol goes at the end.
   */
  lemma AddSymbol(order: seq<Symbol>, m: map<Symbol, Option<Account>>, s: Symbol, v: Option<Account>)
    requires WellBound(Binding(order, m))
    ensures var order' := if s in m then order else order + [s];
      WellBound(Binding(order', m[s := v])) && order <= order'
  {
  }

  /** The symbols the binding loop holds after the first `i` accounts. */
  ghost predicate BoundKeys(currencies: seq<Symbol>, accounts: seq<Account>, i: nat, order: seq<Symbol>,
                            m: map<Symbol, Option<Account>>)
    requires i <= |accounts|
  {
    WellBound(Binding(order, m)) && currencies <= order &&
    m.Keys == (set c | c in currencies) + AccountSymbols(accounts[..i])
  }

  /** What the binding loop has bound after the first `i` accounts: each to its own symbol, the rest None. */
  ghost predicate BoundValues(accounts: seq<Account>, i: nat, m: map<Symbol, Option<Account>>)
    requires i <= |accounts|
  {
    DistinctSymbols(accounts[..i]) &&
    (forall k :: 0 <= k < i ==> accounts[k].symbol in m && m[accounts[k].symbol] == Some(accounts[k])) &&
    (forall c :: c in m && c !in AccountSymbols(accounts[..i]) ==> m[c] == None)
  }

  /** Binding an account adds its symbol, at the end when it is new. */
  lemma BindStepKeys(currencies: seq<Symbol>, accounts: seq<Account>, i: nat, order: seq<Symbol>,
                     m: map<Symbol, Option<Account>>, order': seq<Symbol>, m': map<Symbol, Option<Account>>)
    requires i < |accounts| && BoundKeys(currencies, accounts, i, order, m)
    requires order' == if accounts[i].symbol in m then order else order + [accounts[i].symbol]
    requires m' == m[accounts[i].symbol := Some(accounts[i])]
    ensures BoundKeys(currencies, accounts, i + 1, order', m')
  {
    AccountSymbolsSnoc(accounts, i);
    AddSymbol(order, m, accounts[i].symbol, Some(accounts[i]));
  }

  /** An account whose symbol has no account yet is bound to it, and nothing else changes. */
  lemma BindStepValues(accounts: seq<Account>, i: nat, m: map<Symbol, Option<Account>>, m': map<Symbol, Option<Account>>)
    requires i < |accounts| && BoundValues(accounts, i, m)
    requires var a := accounts[i]; !(a.symbol in m && m[a.symbol].Some?)
    requires m' == m[accounts[i].symbol := Some(accounts[i])]
    ensures BoundValues(accounts, i + 1, m')
  {
    var a := accounts[i];
    AccountSymbolsSnoc(accounts, i);
    forall k | 0 <= k < i ensures accounts[k].symbol != a.symbol {
      assert m[accounts[k].symbol].Some?;
    }
    forall k | 0 <= k < i + 1 ensures accounts[k].symbol in m' && m'[accounts[k].symbol] == Some(accounts[k]) {
      if k < i {
        assert m'[accounts[k].symbol] == m[accounts[k].symbol];
      }
    }
    assert accounts[..i + 1] == accounts[..i] + [a];
    assert DistinctSymbols(accounts[..i + 1]);
  }

  /** An account whose symbol already has one is the second of two with that symbol. */
  lemma BindClash(currencies: seq<Symbol>, accounts: seq<Account>, i: nat, order: seq<Symbol>,
                  m: map<Symbol, Option<Account>>)
    requires i < |accounts| && BoundKeys(currencies, accounts, i, order, m) && BoundValues(accounts, i, m)
    requires var a := accounts[i]; a.symbol in m && m[a.symbol].Some?
    ensures !DistinctSymbols(accounts)
    ensures exists j, k :: (0 <= j < k < |accounts| && accounts[j].symbol == accounts[i].symbol &&
      accounts[k].symbol == accounts[i].symbol)
  {
    var a := accounts[i];
    assert a.symbol in AccountSymbols(accounts[..i]);
    var b :| b in accounts[..i] && b.symbol == a.symbol;
    var k :| 0 <= k < i && accounts[k] == b;
  }

  /** After the last account the binding is what `BindAccounts` promises. */
  lemma BindDone(currencies: seq<Symbol>, accounts: seq<Account>, order: seq<Symbol>, m: map<Symbol, Option<Account>>)
    requires BoundKeys(currencies, accounts, |accounts|, order, m) && BoundValues(accounts, |accounts|, m)
    ensures DistinctSymbols(accounts) && WellBound(Binding(order, m)) && currencies <= order
    ensures m.Keys == (set c | c in currencies) + AccountSymbols(accounts)
    ensures forall a :: a in accounts ==> m[a.symbol] == Some(a)
    ensures forall c :: c in currencies && c !in AccountSymbols(accounts) ==> m[c] == None
  {
    assert accounts[..|accounts|] == accounts;
    forall a | a in accounts ensures m[a.symbol] == Some(a) {
      var k :| 0 <= k < |accounts| && accounts[k] == a;
    }
  }

  /**
    Lines 312-318: start every currency at None, then bind each account to
    its symbol, adding the symbol when it is new; an account for a symbol
    that already has one fails the assertion.
   */
  method BindAccounts(currencies: seq<Symbol>, accounts: seq<Account>) returns (r: Result<Binding, InitError>)
    requires Distinct(currencies)
    ensures r.Ok? <==> DistinctSymbols(accounts)
    ensures r.Err? ==> (r.error.DuplicateAccount? &&
      exists i, j :: 0 <= i < j < |accounts| && accounts[i].symbol == r.error.symbol && accounts[j].symbol == r.error.symbol)
    ensures r.Ok? ==> WellBound(r.value) && currencies <= r.value.order
    ensures r.Ok? ==> r.value.account.Keys == (set c | c in currencies) + AccountSymbols(accounts)
    ensures r.Ok? ==> forall a :: a in accounts ==> r.value.account[a.symbol] == Some(a)
    ensures r.Ok? ==> forall c :: c in currencies && c !in AccountSymbols(accounts) ==> r.value.account[c] == None
  {
    var order := currencies;
    var m: map<Symbol, Option<Account>> := map c | c in currencies :: None;
    assert accounts[..0] == [];
    for i := 0 to |accounts|
      invariant BoundKeys(currencies, accounts, i, order, m) && BoundValues(accounts, i, m)
    {
      var a := accounts[i];
      if a.symbol in m && m[a.symbol].Some? {
        BindClash(currencies, accounts, i, order, m);
        return Err(DuplicateAccount(a.symbol));
      }
      var order' := if a.symbol in m then order else order + [a.symbol];
      var m' := m[a.symbol := Some(a)];
      BindStepKeys(currencies, accounts, i, order, m, order', m');
      BindStepValues(accounts, i, m, m');
      order, m := order', m';
    }
    BindDone(currencies, accounts, order, m);
    return Ok(Binding(order, m));
  }

  lemma ProxiedSnoc(order: seq<Symbol>, proxy: map<Symbol, Symbol>, i: nat)
    requires i < |order|
    ensures Proxied(order[..i + 1], proxy) ==
      Proxied(order[..i], proxy) + (if order[i] in proxy then {proxy[order[i]]} else {})
  {
    assert order[..i + 1][..i] == order[..i];
  }

  /** The proxy symbols found for the currencies of `order`. */
  function Proxied(order: seq<Symbol>, proxy: map<Symbol, Symbol>): set<Symbol>
    decreases |order|
  {
    if order == [] then {}
    else
      var n := |order| - 1;
      Proxied(order[..n], proxy) + (if order[n] in proxy then {proxy[order[n]]} else {})
  }

  /** A proxy symbol is found exactly when some currency of `order` has it as its proxy. */
  lemma {:induction false} ProxiedMembers(order: seq<Symbol>, proxy: map<Symbol, Symbol>, p: Symbol)
    ensures p in Proxied(order, proxy) <==> exists c :: c in order && c in proxy && proxy[c] == p
    decreases |order|
  {
    if order != [] {
      var n := |order| - 1;
      ProxiedMembers(order[..n], proxy, p);
      assert order == order[..n] + [order[n]];
      if p in Proxied(order, proxy) && p !in Proxied(order[..n], proxy) {
        assert order[n] in order;
      }
      if exists c :: c in order && c in proxy && proxy[c] == p {
        var c :| c in order && c in proxy && proxy[c] == p;
        if c != order[n] {
          assert c in order[..n];
        }
      }
    }
  }

  /** An Ethereum account was given. */
  predicate HasEth(b: Binding)
  {
    "ETH" in b.account && b.account["ETH"].Some?
  }

  /** The symbols the proxy loop holds after the first `i` currencies of `b`. */
  ghost predicate ProxyKeys(b: Binding, proxy: map<Symbol, Symbol>, i: nat, order: seq<Symbol>,
                            m: map<Symbol, Option<Account>>)
    requires i <= |b.order|
  {
    WellBound(Binding(order, m)) && b.order <= order &&
    m.Keys == b.account.Keys + Proxied(b.order[..i], proxy)
  }

  /** What the proxy loop has bound after the first `i` currencies of `b`: every proxy to the Ethereum account. */
  ghost predicate ProxyValues(b: Binding, proxy: map<Symbol, Symbol>, i: nat, m: map<Symbol, Option<Account>>)
    requires i <= |b.order|
  {
    HasEth(b) &&
    forall s :: s in m ==>
      if s in Proxied(b.order[..i], proxy) then m[s] == b.account["ETH"] else s in b.account && m[s] == b.account[s]
  }

  /** Adding the proxy of currency `i` adds its symbol, at the end when it is new. */
  lemma ProxyStepKeys(b: Binding, proxy: map<Symbol, Symbol>, i: nat, order: seq<Symbol>,
                      m: map<Symbol, Option<Account>>, order': seq<Symbol>, m': map<Symbol, Option<Account>>)
    requires i < |b.order| && ProxyKeys(b, proxy, i, order, m) && b.order[i] in proxy && "ETH" in m
    requires order' == if proxy[b.order[i]] in m then order else order + [proxy[b.order[i]]]
    requires m' == m[proxy[b.order[i]] := m["ETH"]]
    ensures ProxyKeys(b, proxy, i + 1, order', m')
  {
    ProxiedSnoc(b.order, proxy, i);
    AddSymbol(order, m, proxy[b.order[i]], m["ETH"]);
  }

  /** Binding the proxy of currency `i` to the Ethereum account, which stays as it was. */
  lemma ProxyStepValues(b: Binding, proxy: map<Symbol, Symbol>, i: nat, order: seq<Symbol>,
                        m: map<Symbol, Option<Account>>, m': map<Symbol, Option<Account>>)
    requires i < |b.order| && ProxyKeys(b, proxy, i, order, m) && ProxyValues(b, proxy, i, m)
    requires b.order[i] in proxy
    requires m' == m[proxy[b.order[i]] := m["ETH"]]
    ensures ProxyValues(b, proxy, i + 1, m')
  {
    ProxiedSnoc(b.order, proxy, i);
    assert m["ETH"] == b.account["ETH"];
  }

  /** A currency without a proxy token changes nothing, and the loop goes on. */
  lemma ProxySkip(b: Binding, proxy: map<Symbol, Symbol>, i: nat, order: seq<Symbol>, m: map<Symbol, Option<Account>>)
    requires i < |b.order| && ProxyKeys(b, proxy, i, order, m) && ProxyValues(b, proxy, i, m) && b.order[i] !in proxy
    ensures ProxyKeys(b, proxy, i + 1, order, m) && ProxyValues(b, proxy, i + 1, m)
  {
    ProxiedSnoc(b.order, proxy, i);
  }

  /**
    Lines 323-333: every currency whose proxy token is found (`proxy`; a
    missing entry is a `tokeninfo` call that raised) has that token bound
    to the Ethereum account, when there is one.
   */
  method AddProxies(b: Binding, proxy: map<Symbol, Symbol>) returns (e: Binding)
    requires WellBound(b)
    ensures WellBound(e) && b.order <= e.order
    ensures !HasEth(b) ==> e == b
    ensures HasEth(b) ==>
      e.account.Keys == b.account.Keys + Proxied(b.order, proxy) &&
      forall s :: s in e.account ==>
        e.account[s] == if s in Proxied(b.order, proxy) then b.account["ETH"] else b.account[s]
  {
    if !("ETH" in b.account && b.account["ETH"].Some?) {
      return b;
    }
    var order := b.order;
    var m := b.account;
    assert b.order[..0] == [];
    for i := 0 to |b.order|
      invariant ProxyKeys(b, proxy, i, order, m) && ProxyValues(b, proxy, i, m)
    {
      var c := b.order[i];
      if c in proxy {
        var p := proxy[c];
        var order' := if p in m then order else order + [p];
        var m' := m[p := m["ETH"]];
        ProxyStepKeys(b, proxy, i, order, m, order', m');
        ProxyStepValues(b, proxy, i, order, m, m');
        order, m := order', m';
      } else {
        ProxySkip(b, proxy, i, order, m);
      }
    }
    assert b.order[..|b.order|] == b.order;
    return Binding(order, m);
  }

  /** What `tokeninfo` says of a line's currency: its token symbol and decimals. */
  datatype TokenInfo = TokenInfo(symbol: Symbol, decimals: nat)

  datatype Invoice = Invoice(
    lines: seq<Item>,
    infos: seq<TokenInfo>,   // one per line
    currencies: seq<Symbol>, // the invoice currencies, each once
    accounts: map<Symbol, Option<Account>>,
    conversions: Conv
  )

  /**
    What a built invoice guarantees its rows: a token per line, and a known
    ratio from every line's symbol to every other invoice currency.
   */
  ghost predicate Ready(inv: Invoice)
  {
    |inv.infos| == |inv.lines| && Distinct(inv.currencies) &&
    forall i, c :: 0 <= i < |inv.infos| && c in inv.currencies && inv.infos[i].symbol != c ==>
      Known(inv.conversions, (inv.infos[i].symbol, c))
  }

  /**
    Line 478 for line i: the first invoice currency from position j on
    whose ratio from the line's token symbol is missing or None, where the
    lookup raises KeyError or TypeError.
   */
  function GapIn(inv: Invoice, i: nat, j: nat): (r: Option<Symbol>)
    requires i < |inv.infos| && j <= |inv.currencies|
    ensures r.None? <==> forall m :: j <= m < |inv.currencies| && inv.infos[i].symbol != inv.currencies[m] ==>
      Known(inv.conversions, (inv.infos[i].symbol, inv.currencies[m]))
    ensures r.Some? ==> (r.value in inv.currencies[j..] && inv.infos[i].symbol != r.value &&
      !Known(inv.conversions, (inv.infos[i].symbol, r.value)))
    decreases |inv.currencies| - j
  {
    if j == |inv.currencies| then None
    else
      var c := inv.currencies[j];
      if inv.infos[i].symbol != c && !Known(inv.conversions, (inv.infos[i].symbol, c)) then Some(c)
      else
        var r := GapIn(inv, i, j + 1);
        assert r.Some? ==> r.value in inv.currencies[j..] by {
          if r.Some? {
            assert inv.currencies[j + 1..] == inv.currencies[j..][1..];
          }
        }
        r
  }

  /**
    The line, from line i on, at which iterating the invoice raises, with
    the currency whose ratio it looks up in vain: the first line with a gap.
   */
  function FirstGap(inv: Invoice, i: nat): (r: Option<(nat, Symbol)>)
    requires |inv.infos| == |inv.lines| && i <= |inv.lines|
    ensures r.None? <==> forall l, c :: i <= l < |inv.lines| && c in inv.currencies && inv.infos[l].symbol != c ==>
      Known(inv.conversions, (inv.infos[l].symbol, c))
    ensures r.Some? ==> i <= r.value.0 < |inv.lines| && GapIn(inv, r.value.0, 0) == Some(r.value.1)
    ensures r.Some? ==> forall l :: i <= l < r.value.0 ==> GapIn(inv, l, 0).None?
    decreases |inv.lines| - i
  {
    if i == |inv.lines| then None
    else
      var g := GapIn(inv, i, 0);
      assert inv.currencies[0..] == inv.currencies;
      assert g.None? ==> forall c :: c in inv.currencies && inv.infos[i].symbol != c ==>
        Known(inv.conversions, (inv.infos[i].symbol, c));
      if g.Some? then Some((i, g.value)) else FirstGap(inv, i + 1)
  }

  /**
    `Invoice.__init__` without its lookups: default the currencies and drop
    repeated ones (`set(currencies)`), bind the accounts, add the proxies,
    seed every line symbol against every invoice currency, and resolve.

    The line symbols seeded (`seeds`, line 353's `cryptocurrency_symbol`,
    e.g. BTC) need not be the token symbols the rows convert from (`infos`,
    line 465's `tokeninfo`, e.g. WBTC). A built invoice knows the ratio from
    every seeded symbol to every other invoice currency; it is Ready for its
    rows when each line's two symbols agree.
   */
  method NewInvoice(lines: seq<Item>, infos: seq<TokenInfo>, seeds: seq<Symbol>, accounts: seq<Account>,
                    currencies: seq<Symbol>, defaultCurrency: Symbol, conversions: Conv, proxy: map<Symbol, Symbol>,
                    oracle: map<Symbol, Quote>)
    returns (r: Result<Invoice, InitError>)
    requires |infos| == |lines| && |seeds| == |lines| && Ratios.Valid(conversions)
    ensures (r.Err? && r.error.DuplicateAccount?) <==> !DistinctSymbols(accounts)
    ensures r.Ok? ==> r.value.lines == lines && r.value.infos == infos && Distinct(r.value.currencies)
    ensures r.Ok? ==> forall i, c :: 0 <= i < |seeds| && c in r.value.currencies && seeds[i] != c ==>
      Known(r.value.conversions, (seeds[i], c))
    ensures r.Ok? && (forall i :: 0 <= i < |lines| ==> infos[i].symbol == seeds[i]) ==> Ready(r.value)
    ensures r.Ok? && currencies == [] ==> defaultCurrency in r.value.currencies
    ensures r.Ok? ==> forall c :: c in currencies ==> c in r.value.currencies
    ensures r.Ok? ==> forall a :: a in accounts ==> a.symbol in r.value.currencies
    ensures r.Ok? ==> (Closed(r.value.conversions) &&
      forall k :: k in r.value.conversions.vals ==> Known(r.value.conversions, k))
  {
    var cs := if currencies == [] then [defaultCurrency] else Dedup(currencies);
    var bound := BindAccounts(cs, accounts);
    if bound.Err? {
      return Err(bound.error);
    }
    var b := AddProxies(bound.value, proxy);
    assert forall a :: a in accounts ==> a.symbol in b.order by {
      forall a | a in accounts ensures a.symbol in b.order {
        assert a.symbol in AccountSymbols(accounts);
      }
    }
    var conv := new Conversions(conversions);
    conv.Seed(seeds, b.order);
    SeededKeeps(conversions, seeds, b.order);
    ghost var seeded := conv.Model();
    var res := conv.Resolve(oracle);
    if res.Err? {
      return Err(Resolution(res.error));
    }
    var inv := Invoice(lines, infos, b.order, b.account, conv.Model());
    forall i, c | 0 <= i < |seeds| && c in b.order && seeds[i] != c
      ensures Known(inv.conversions, (seeds[i], c))
    {
      var k := (seeds[i], c);
      assert seeds[i] in seeds;
      assert k in WantedPairs(seeds, b.order);
      assert k in seeded.keys;
    }
    return Ok(inv);
  }

  /** `line.currency or INVOICE_CURRENCY`. */
  function LineCurrency(item: Item, defaultCurrency: string): string
  {
    if item.currency.None? || item.currency.value == "" then defaultCurrency else item.currency.value
  }

  /** A line's own decimals, or a third of its token's. */
  function LineDecimals(item: Item, info: TokenInfo): int
  {
    if item.decimals.None? then info.decimals / 3 else item.decimals.value
  }

  /** The rounded amount and rounded taxes of line `i`. */
  function Rounded(inv: Invoice, rnd: (real, int) -> real, i: nat): (real, real)
    requires i < |inv.lines| && |inv.infos| == |inv.lines|
  {
    var n := LineNet(inv.lines[i]);
    var d := LineDecimals(inv.lines[i], inv.infos[i]);
    (rnd(n.amount, d), rnd(n.taxes, d))
  }

  /** A value of line `i` in invoice currency `c`: as it is in its own symbol, else times the ratio. */
  function Converted(inv: Invoice, i: nat, c: Symbol, x: real): real
    requires Ready(inv) && i < |inv.lines| && c in inv.currencies
  {
    if inv.infos[i].symbol == c then x else Scale(x, Get(inv.conversions, (inv.infos[i].symbol, c)).ratio)
  }

  /** A value times a conversion ratio. */
  function Scale(x: real, ratio: real): real
  {
    x * ratio
  }

  /** The running total in `c` after the first `n` lines, of rounded amounts or of rounded taxes. */
  function Total(inv: Invoice, rnd: (real, int) -> real, c: Symbol, n: nat, taxes: bool): real
    requires Ready(inv) && n <= |inv.lines| && c in inv.currencies
  {
    if n == 0 then 0.0
    else
      var x := Rounded(inv, rnd, n - 1);
      Total(inv, rnd, c, n - 1, taxes) + Converted(inv, n - 1, c, if taxes then x.1 else x.0)
  }

  /** `sorted(currencies)`: the invoice currencies in ascending order. */
  function SortedCurrencies(cs: seq<Symbol>): (s: seq<Symbol>)
    ensures Sorted(s) && multiset(s) == multiset(cs)
    ensures |s| == |cs| && forall j :: 0 <= j < |s| ==> s[j] in cs
  {
    var s := Sort(cs);
    assert forall j :: 0 <= j < |s| ==> s[j] in cs by {
      forall j | 0 <= j < |s| ensures s[j] in cs {
        assert s[j] in multiset(s);
      }
    }
    s
  }

  /** The running totals after `n` lines, in `sorted(currencies)` order. */
  function Totals(inv: Invoice, rnd: (real, int) -> real, n: nat, taxes: bool): (t: seq<real>)
    requires Ready(inv) && n <= |inv.lines|
    ensures |t| == |inv.currencies|
  {
    var s := SortedCurrencies(inv.currencies);
    seq(|s|, j requires 0 <= j < |s| => Total(inv, rnd, s[j], n, taxes))
  }

  datatype Row = Row(
    index: nat, description: string, units: real, price: real, tax: Option<real>, taxInfo: TaxInfo,
    taxes: real, net: real, amount: real, currency: string, symbol: Symbol, decimals: int,
    totals: seq<real>, taxTotals: seq<real>)

  /** The row yielded for line `i`. */
  function RowAt(inv: Invoice, defaultCurrency: string, rnd: (real, int) -> real, i: nat): Row
    requires Ready(inv) && i < |inv.lines|
  {
    var line := inv.lines[i];
    var x := Rounded(inv, rnd, i);
    Row(i, line.description, line.units, line.price, line.tax, LineNet(line).info,
        x.1, x.0 - x.1, x.0, LineCurrency(line, defaultCurrency), inv.infos[i].symbol,
        LineDecimals(line, inv.infos[i]), Totals(inv, rnd, i + 1, false), Totals(inv, rnd, i + 1, true))
  }

  function AllRows(inv: Invoice, defaultCurrency: string, rnd: (real, int) -> real): (rows: seq<Row>)
    requires Ready(inv)
    ensures |rows| == |inv.lines|
  {
    seq(|inv.lines|, i requires 0 <= i < |inv.lines| => RowAt(inv, defaultCurrency, rnd, i))
  }

  /** The dicts `tot` and `tax` hold the running totals of the first `n` lines. */
  ghost predicate TotalsAt(inv: Invoice, rnd: (real, int) -> real, tot: map<Symbol, real>, tax: map<Symbol, real>, n: nat)
    requires Ready(inv) && n <= |inv.lines|
  {
    forall c :: c in inv.currencies ==>
      c in tot && tot[c] == Total(inv, rnd, c, n, false) && c in tax && tax[c] == Total(inv, rnd, c, n, true)
  }

  /**
    Part way through adding line `i` to dict `d` (the totals, or the taxes
    when `taxes`): the currencies among the first `j` have line `i` added,
    the others not yet.
   */
  ghost predicate AddedUpTo(inv: Invoice, rnd: (real, int) -> real, i: nat, j: nat, d: map<Symbol, real>, taxes: bool)
    requires Ready(inv) && i < |inv.lines| && j <= |inv.currencies|
  {
    forall c :: c in inv.currencies ==>
      c in d && d[c] == Total(inv, rnd, c, if c in inv.currencies[..j] then i + 1 else i, taxes)
  }

  /** In a sequence without repeats an element does not occur before its own place. */
  lemma DistinctNotBefore(cs: seq<Symbol>, j: nat)
    requires Distinct(cs) && j < |cs|
    ensures cs[j] !in cs[..j]
  {
    forall k | 0 <= k < j ensures cs[..j][k] != cs[j] {
      assert cs[..j][k] == cs[k];
    }
  }

  /** Before the first currency the partial totals are the totals before line `i`. */
  lemma AddedStart(inv: Invoice, rnd: (real, int) -> real, i: nat, tot: map<Symbol, real>, tax: map<Symbol, real>)
    requires Ready(inv) && i < |inv.lines| && TotalsAt(inv, rnd, tot, tax, i)
    ensures AddedUpTo(inv, rnd, i, 0, tot, false) && AddedUpTo(inv, rnd, i, 0, tax, true)
  {
    assert inv.currencies[..0] == [];
  }

  /** After the last currency the partial totals are the totals after line `i`. */
  lemma AddedEnd(inv: Invoice, rnd: (real, int) -> real, i: nat, tot: map<Symbol, real>, tax: map<Symbol, real>)
    requires Ready(inv) && i < |inv.lines|
    requires AddedUpTo(inv, rnd, i, |inv.currencies|, tot, false) && AddedUpTo(inv, rnd, i, |inv.currencies|, tax, true)
    ensures TotalsAt(inv, rnd, tot, tax, i + 1)
  {
    assert inv.currencies[..|inv.currencies|] == inv.currencies;
  }

  /** Setting the entry of the next currency to its total after line `i` moves the loop one currency on. */
  lemma AddStep(inv: Invoice, rnd: (real, int) -> real, i: nat, j: nat, taxes: bool, v: real,
                d: map<Symbol, real>, d': map<Symbol, real>)
    requires Ready(inv) && i < |inv.lines| && j < |inv.currencies| && AddedUpTo(inv, rnd, i, j, d, taxes)
    requires v == Total(inv, rnd, inv.currencies[j], i + 1, taxes) && d' == d[inv.currencies[j] := v]
    ensures AddedUpTo(inv, rnd, i, j + 1, d', taxes)
  {
    var cs := inv.currencies;
    DistinctNotBefore(cs, j);
    assert cs[..j + 1] == cs[..j] + [cs[j]];
  }

  /** Line 473-478 for the `j`th invoice currency: add line `i`, converted, to its total and its taxes. */
  method AddTo(inv: Invoice, rnd: (real, int) -> real, i: nat, j: nat, amount: real, taxes: real,
               tot: map<Symbol, real>, tax: map<Symbol, real>)
    returns (tot': map<Symbol, real>, tax': map<Symbol, real>)
    requires Ready(inv) && i < |inv.lines| && j < |inv.currencies|
    requires AddedUpTo(inv, rnd, i, j, tot, false) && AddedUpTo(inv, rnd, i, j, tax, true)
    requires amount == Rounded(inv, rnd, i).0 && taxes == Rounded(inv, rnd, i).1
    ensures AddedUpTo(inv, rnd, i, j + 1, tot', false) && AddedUpTo(inv, rnd, i, j + 1, tax', true)
  {
    var c := inv.currencies[j];
    var sym := inv.infos[i].symbol;
    assert c in inv.currencies && c in tot && c in tax;
    assert !(c in inv.currencies[..j]) by {
      DistinctNotBefore(inv.currencies, j);
    }
    var da, dx;
    if sym == c {
      da, dx := amount, taxes;
    } else {
      var ratio := Get(inv.conversions, (sym, c)).ratio;
      da, dx := Scale(amount, ratio), Scale(taxes, ratio);
    }
    assert tot[c] + da == Total(inv, rnd, c, i + 1, false);
    assert tax[c] + dx == Total(inv, rnd, c, i + 1, true);
    tot', tax' := tot[c := tot[c] + da], tax[c := tax[c] + dx];
    AddStep(inv, rnd, i, j, false, tot[c] + da, tot, tot');
    AddStep(inv, rnd, i, j, true, tax[c] + dx, tax, tax');
  }

  /** Lines 472-478: add line `i`'s rounded amount and taxes, converted, to every currency's totals. */
  method AddLine(inv: Invoice, rnd: (real, int) -> real, i: nat, amount: real, taxes: real,
                 tot: map<Symbol, real>, tax: map<Symbol, real>)
    returns (tot': map<Symbol, real>, tax': map<Symbol, real>)
    requires Ready(inv) && i < |inv.lines| && TotalsAt(inv, rnd, tot, tax, i)
    requires (amount, taxes) == Rounded(inv, rnd, i)
    ensures TotalsAt(inv, rnd, tot', tax', i + 1)
  {
    tot', tax' := tot, tax;
    AddedStart(inv, rnd, i, tot, tax);
    for j := 0 to |inv.currencies|
      invariant AddedUpTo(inv, rnd, i, j, tot', false) && AddedUpTo(inv, rnd, i, j, tax', true)
    {
      tot', tax' := AddTo(inv, rnd, i, j, amount, taxes, tot', tax');
    }
    AddedEnd(inv, rnd, i, tot', tax');
  }

  /** The totals of dict `tot`, one per symbol of `s`, in that order. */
  function TotalsOf(tot: map<Symbol, real>, s: seq<Symbol>): (t: seq<real>)
    requires forall j :: 0 <= j < |s| ==> s[j] in tot
    ensures |t| == |s| && forall j :: 0 <= j < |s| ==> t[j] == tot[s[j]]
  {
    seq(|s|, j requires 0 <= j < |s| => tot[s[j]])
  }

  /** Dicts that hold the totals after `n` lines give, in sorted order, the totals of the row of line `n`. */
  lemma TotalsOfAt(inv: Invoice, rnd: (real, int) -> real, n: nat, tot: map<Symbol, real>, tax: map<Symbol, real>)
    requires Ready(inv) && n <= |inv.lines| && TotalsAt(inv, rnd, tot, tax, n)
    ensures var s := SortedCurrencies(inv.currencies);
      (forall j :: 0 <= j < |s| ==> s[j] in tot && s[j] in tax) &&
      TotalsOf(tot, s) == Totals(inv, rnd, n, false) && TotalsOf(tax, s) == Totals(inv, rnd, n, true)
  {
  }

  /** The row of line `i`, given its rounded amount and taxes and the totals after it. */
  lemma RowOf(inv: Invoice, defaultCurrency: string, rnd: (real, int) -> real, i: nat, amount: real, taxes: real,
              totals: seq<real>, taxTotals: seq<real>)
    requires Ready(inv) && i < |inv.lines| && (amount, taxes) == Rounded(inv, rnd, i)
    requires totals == Totals(inv, rnd, i + 1, false) && taxTotals == Totals(inv, rnd, i + 1, true)
    ensures var line := inv.lines[i]; var info := inv.infos[i];
      Row(i, line.description, line.units, line.price, line.tax, LineNet(line).info, taxes, amount - taxes,
          amount, LineCurrency(line, defaultCurrency), info.symbol, LineDecimals(line, info), totals, taxTotals)
      == RowAt(inv, defaultCurrency, rnd, i)
  {
  }

  /**
    Lines 454-498: one row per line, in line order, adding each line's
    rounded amount and taxes, converted, to the totals of every invoice
    currency as it goes.
   */
  method Rows(inv: Invoice, defaultCurrency: string, rnd: (real, int) -> real) returns (rows: seq<Row>)
    requires Ready(inv)
    ensures rows == AllRows(inv, defaultCurrency, rnd)
  {
    var tot: map<Symbol, real> := map c | c in inv.currencies :: 0.0;
    var tax: map<Symbol, real> := map c | c in inv.currencies :: 0.0;
    var sorted := SortedCurrencies(inv.currencies);
    rows := [];
    ghost var all := AllRows(inv, defaultCurrency, rnd);
    for i := 0 to |inv.lines|
      invariant rows == all[..i]
      invariant TotalsAt(inv, rnd, tot, tax, i)
    {
      var row;
      row, tot, tax := NextRow(inv, defaultCurrency, rnd, i, sorted, tot, tax);
      AllRowsSnoc(inv, defaultCurrency, rnd, i);
      rows := rows + [row];
    }
    assert all[..|inv.lines|] == all;
  }

  /**
    Iterating the invoice (lines 461-498): all its rows when every ratio
    they need is known, otherwise the exception raised at the first line
    with a gap.
   */
  method Iterate(inv: Invoice, defaultCurrency: string, rnd: (real, int) -> real)
    returns (r: Result<seq<Row>, (nat, Symbol)>)
    requires |inv.infos| == |inv.lines| && Distinct(inv.currencies)
    ensures r.Ok? <==> Ready(inv)
    ensures r.Ok? ==> Ready(inv) && r.value == AllRows(inv, defaultCurrency, rnd)
    ensures r.Err? ==> FirstGap(inv, 0) == Some(r.error)
  {
    var gap := FirstGap(inv, 0);
    if gap.Some? {
      return Err(gap.value);
    }
    var rows := Rows(inv, defaultCurrency, rnd);
    return Ok(rows);
  }

  lemma AllRowsSnoc(inv: Invoice, defaultCurrency: string, rnd: (real, int) -> real, i: nat)
    requires Ready(inv) && i < |inv.lines|
    ensures var all := AllRows(inv, defaultCurrency, rnd); all[..i + 1] == all[..i] + [RowAt(inv, defaultCurrency, rnd, i)]
  {
    var all := AllRows(inv, defaultCurrency, rnd);
    assert all[..i + 1] == all[..i] + [all[i]];
  }

  /** Lines 462-498 for line `i`: round its net, add it to the totals, and yield its row. */
  method NextRow(inv: Invoice, defaultCurrency: string, rnd: (real, int) -> real, i: nat, sorted: seq<Symbol>,
                 tot: map<Symbol, real>, tax: map<Symbol, real>)
    returns (row: Row, tot': map<Symbol, real>, tax': map<Symbol, real>)
    requires Ready(inv) && i < |inv.lines| && TotalsAt(inv, rnd, tot, tax, i)
    requires sorted == SortedCurrencies(inv.currencies)
    ensures row == RowAt(inv, defaultCurrency, rnd, i) && TotalsAt(inv, rnd, tot', tax', i + 1)
  {
    var line := inv.lines[i];
    var info := inv.infos[i];
    var n := LineNet(line);
    var decimals := LineDecimals(line, info);
    var amount := rnd(n.amount, decimals);
    var taxes := rnd(n.taxes, decimals);
    tot', tax' := AddLine(inv, rnd, i, amount, taxes, tot, tax);
    TotalsOfAt(inv, rnd, i + 1, tot', tax');
    var totals := TotalsOf(tot', sorted);
    var taxTotals := TotalsOf(tax', sorted);
    RowOf(inv, defaultCurrency, rnd, i, amount, taxes, totals, taxTotals);
    row := Row(i, line.description, line.units, line.price, line.tax, n.info, taxes, amount - taxes,
               amount, LineCurrency(line, defaultCurrency), info.symbol, decimals, totals, taxTotals);
  }

  /**
    Each row's totals are the previous row's plus what its own line adds,
    and the first row's are what the first line adds: the totals are
    running sums over the lines so far.
   */
  lemma RunningTotals(inv: Invoice, defaultCurrency: string, rnd: (real, int) -> real, i: nat, j: nat)
    requires Ready(inv) && i < |inv.lines| && j < |inv.currencies|
    ensures var s := SortedCurrencies(inv.currencies); var row := RowAt(inv, defaultCurrency, rnd, i);
      row.totals[j] == (if i == 0 then 0.0 else RowAt(inv, defaultCurrency, rnd, i - 1).totals[j]) +
        Converted(inv, i, s[j], row.amount) &&
      row.taxTotals[j] == (if i == 0 then 0.0 else RowAt(inv, defaultCurrency, rnd, i - 1).taxTotals[j]) +
        Converted(inv, i, s[j], row.taxes)
  {
    var s := SortedCurrencies(inv.currencies);
    assert RowAt(inv, defaultCurrency, rnd, i).totals[j] == Total(inv, rnd, s[j], i + 1, false);
    assert RowAt(inv, defaultCurrency, rnd, i).taxTotals[j] == Total(inv, rnd, s[j], i + 1, true);
    if i > 0 {
      assert RowAt(inv, defaultCurrency, rnd, i - 1).totals[j] == Total(inv, rnd, s[j], i, false);
      assert RowAt(inv, defaultCurrency, rnd, i - 1).taxTotals[j] == Total(inv, rnd, s[j], i, true);
    }
  }

  /** Each row's net is its rounded amount less its rounded taxes. */
  lemma RowNet(inv: Invoice, defaultCurrency: string, rnd: (real, int) -> real, i: nat)
    requires Ready(inv) && i < |inv.lines|
    ensures var row := RowAt(inv, defaultCurrency, rnd, i);
      row.net == row.amount - row.taxes && row.index == i &&
      row.amount == rnd(LineNet(inv.lines[i]).amount, row.decimals) &&
      row.taxes == rnd(LineNet(inv.lines[i]).taxes, row.decimals)
  {
  }

  /** Rounded amounts and the ratios used are all non-negative. */
  ghost predicate NonNegative(inv: Invoice, rnd: (real, int) -> real)
    requires Ready(inv)
  {
    (forall i :: 0 <= i < |inv.lines| ==> Rounded(inv, rnd, i).0 >= 0.0 && Rounded(inv, rnd, i).1 >= 0.0) &&
    (forall i, c :: 0 <= i < |inv.lines| && c in inv.currencies && inv.infos[i].symbol != c ==>
      Get(inv.conversions, (inv.infos[i].symbol, c)).ratio >= 0.0)
  }

  /**
    The sums are not rounded, so with non-negative amounts and ratios no
    total ever decreases from one row to the next.
   */
  lemma {:induction false} TotalsGrow(inv: Invoice, rnd: (real, int) -> real, c: Symbol, m: nat, n: nat, taxes: bool)
    requires Ready(inv) && NonNegative(inv, rnd) && m <= n <= |inv.lines| && c in inv.currencies
    ensures Total(inv, rnd, c, m, taxes) <= Total(inv, rnd, c, n, taxes)
    decreases n
  {
    if m < n {
      TotalsGrow(inv, rnd, c, m, n - 1, taxes);
      var x := Rounded(inv, rnd, n - 1);
      var v := if taxes then x.1 else x.0;
      assert v >= 0.0;
      if inv.infos[n - 1].symbol != c {
        var ratio := Get(inv.conversions, (inv.infos[n - 1].symbol, c)).ratio;
        assert ratio >= 0.0;
        assert Scale(v, ratio) >= 0.0;
      }
    }
  }

  /** The headers that every invoice has, before the totals. */
  const FixedHeaders: seq<string> := [
    "_#", "Description", "Units", "Price", "_Tax", "Tax %", "Taxes", "Net", "Amount",
    "Currency", "_Symbol", "_Decimals", "_Token"]

  /** Lines 412-435: the fixed headers, then a running total and a running tax per sorted currency. */
  function Headers(currencies: seq<Symbol>): seq<string>
  {
    var s := SortedCurrencies(currencies);
    FixedHeaders +
    seq(|s|, j requires 0 <= j < |s| => "_Total " + s[j]) +
    seq(|s|, j requires 0 <= j < |s| => "_Taxes " + s[j])
  }

  /**
    Headers and rows line up: a row has one field per header, and the
    header over each total names the currency that total is kept in.
   */
  lemma HeadersLabelRows(inv: Invoice, defaultCurrency: string, rnd: (real, int) -> real, i: nat)
    requires Ready(inv) && i < |inv.lines|
    ensures var h := Headers(inv.currencies); var row := RowAt(inv, defaultCurrency, rnd, i);
      var s := SortedCurrencies(inv.currencies); var n := |inv.currencies|;
      |h| == |FixedHeaders| + |row.totals| + |row.taxTotals| &&
      forall j :: 0 <= j < n ==>
        h[|FixedHeaders| + j] == "_Total " + s[j] && row.totals[j] == Total(inv, rnd, s[j], i + 1, false) &&
        h[|FixedHeaders| + n + j] == "_Taxes " + s[j] && row.taxTotals[j] == Total(inv, rnd, s[j], i + 1, true)
  {
  }

  /**
    By default the tables show exactly Description, Units, Price, Tax %,
    Taxes, Net, Amount and Currency: every total and tax column is hidden,
    whatever the currencies.
   */
  lemma DefaultColumns(currencies: seq<Symbol>)
    ensures var r := Select(Headers(currencies), Unspecified);
      r.Ok? && forall i :: i in r.value <==> i in [1, 2, 3, 5, 6, 7, 8, 9]
  {
    var h := Headers(currencies);
    HeadersHidden(currencies);
    var r := Select(h, Unspecified);
    FixedHeadersShown();
    forall i | 0 <= i < |h| ensures !Hidden(h[i]) <==> i in [1, 2, 3, 5, 6, 7, 8, 9] {
      if i < |FixedHeaders| {
        assert h[i] == FixedHeaders[i];
      }
    }
  }

  /** Of the fixed headers, exactly the ones at 1, 2, 3 and 5 to 9 are shown by default. */
  lemma FixedHeadersShown()
    ensures forall i :: 0 <= i < |FixedHeaders| ==> (!Hidden(FixedHeaders[i]) <==> i in [1, 2, 3, 5, 6, 7, 8, 9])
  {
    var hidden := [true, false, false, false, true, false, false, false, false, false, true, true, true];
    forall i | 0 <= i < |FixedHeaders| ensures Hidden(FixedHeaders[i]) == hidden[i] {
    }
  }

  /** The fixed headers come first, and every total and tax header is hidden. */
  lemma HeadersHidden(currencies: seq<Symbol>)
    ensures var h := Headers(currencies);
      |h| >= |FixedHeaders| && h[..|FixedHeaders|] == FixedHeaders &&
      forall i :: |FixedHeaders| <= i < |h| ==> Hidden(h[i])
  {
    var h := Headers(currencies);
    forall i | |FixedHeaders| <= i < |h| ensures Hidden(h[i]) {
      assert h[i][0] == '_';
    }
  }

  /**
    `Invoice.pages`: the rows gathered into pages. Without a filter the
    pages put back together are the rows, in order.
   */
  method InvoicePages(inv: Invoice, defaultCurrency: string, rnd: (real, int) -> real, f: PageFilter, size: int)
    returns (pages: seq<seq<Row>>)
    requires Ready(inv)
    ensures pages == Keep(Chunks(AllRows(inv, defaultCurrency, rnd), PageSize(size)), f, 0)
    ensures f == All ==> Flatten(pages) == AllRows(inv, defaultCurrency, rnd)
  {
    var rows := Rows(inv, defaultCurrency, rnd);
    pages := Paginate(rows, f, size);
    KeepAll(Chunks(rows, PageSize(size)), 0);
    ChunksFlatten(rows, PageSize(size));
  }
}
