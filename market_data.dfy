/** The home page's market table: eight listed coins, the search filter,
    the numbering of the rows shown, the change badge, the choice of number
    notation, and the chart of the selected coin with its fallback series.
    Prices and changes are exact decimals here; the source holds them as
    floating-point numbers. */
module MarketData {
  import opened Text
  import opened Options

  datatype Crypto = Crypto(
    id: string, name: string, symbol: string,
    price: real, change: real, marketCap: nat, volume: nat, highlight: bool)

  const Cryptos := [
    Crypto("btc", "Bitcoin", "BTC", 61245.82, 2.54, 1198432687423, 28765345987, false),
    Crypto("eth", "Ethereum", "ETH", 3324.17, -0.87, 398754321654, 15432789654, false),
    Crypto("sol", "Solana", "SOL", 129.35, 5.67, 52457896321, 5678912345, false),
    Crypto("bnb", "Binance Coin", "BNB", 584.21, 1.23, 89765432123, 3421567890, false),
    Crypto("ada", "Cardano", "ADA", 0.58, -2.18, 20123456789, 1234567890, false),
    Crypto("xrp", "XRP", "XRP", 0.58, 3.42, 30876543210, 2345678901, false),
    Crypto("doge", "Dogecoin", "DOGE", 0.15, -1.24, 19876543210, 1987654321, false),
    Crypto("forza", "Forza", "FORZA", 0.042, 12.74, 4200000000, 1234567890, true)
  ]

  // ---------------------------------------------------------------- search

  /** The search keeps a coin whose lower-cased name or symbol contains the
      lower-cased query. */
  predicate MatchesQuery(c: Crypto, query: string): (b: bool)
    ensures query == [] ==> b
    ensures Lower(query) == Lower(c.symbol) ==> b
  {
    Includes(Lower(c.name), Lower(query)) || Includes(Lower(c.symbol), Lower(query))
  }

  /** The coins the table shows for `query`, in table order. */
  function Filter(cs: seq<Crypto>, query: string): (r: seq<Crypto>)
    ensures |r| <= |cs|
  {
    if cs == [] then []
    else (if MatchesQuery(cs[0], query) then [cs[0]] else []) + Filter(cs[1..], query)
  }

  /** Only matching coins are shown. */
  lemma {:induction false} FilterSound(cs: seq<Crypto>, query: string)
    ensures forall c :: c in Filter(cs, query) ==> c in cs && MatchesQuery(c, query)
  {
    if cs != [] {
      FilterSound(cs[1..], query);
    }
  }

  /** Every matching coin is shown. */
  lemma {:induction false} FilterComplete(cs: seq<Crypto>, query: string, c: Crypto)
    requires c in cs && MatchesQuery(c, query)
    ensures c in Filter(cs, query)
  {
    if cs[0] != c {
      FilterComplete(cs[1..], query, c);
    }
  }

  /** Filtering keeps the table order: the rows shown for a table made of
      two parts are those shown for the first part, then those for the
      second. */
  lemma {:induction false} FilterAppend(a: seq<Crypto>, b: seq<Crypto>, query: string)
    ensures Filter(a + b, query) == Filter(a, query) + Filter(b, query)
    decreases |a|
  {
    if a == [] {
      assert a + b == b;
    } else {
      var head := if MatchesQuery(a[0], query) then [a[0]] else [];
      assert (a + b)[0] == a[0];
      assert (a + b)[1..] == a[1..] + b;
      FilterAppend(a[1..], b, query);
      calc {
        Filter(a + b, query);
        head + Filter(a[1..] + b, query);
        head + (Filter(a[1..], query) + Filter(b, query));
        (head + Filter(a[1..], query)) + Filter(b, query);
        Filter(a, query) + Filter(b, query);
      }
    }
  }

  /** An empty search box shows the whole table. */
  lemma {:induction false} EmptyQueryShowsAll(cs: seq<Crypto>)
    ensures Filter(cs, "") == cs
  {
    if cs != [] {
      EmptyQueryShowsAll(cs[1..]);
    }
  }

  /** Searching "coin" shows Bitcoin, Binance Coin and Dogecoin, numbered
      1, 2 and 3. */
  lemma CoinSearch(query: string)
    requires query == "coin"
    ensures Filter(Cryptos, query) == [Cryptos[0], Cryptos[3], Cryptos[6]]
  {
    CoinMatches(query);
    CoinMisses(query);
    FilterOfEight(Cryptos, query);
  }

  lemma FilterOfEight(cs: seq<Crypto>, query: string)
    requires |cs| == 8
    requires MatchesQuery(cs[0], query) && MatchesQuery(cs[3], query) && MatchesQuery(cs[6], query)
    requires !MatchesQuery(cs[1], query) && !MatchesQuery(cs[2], query) && !MatchesQuery(cs[4], query)
    requires !MatchesQuery(cs[5], query) && !MatchesQuery(cs[7], query)
    ensures Filter(cs, query) == [cs[0], cs[3], cs[6]]
  {
    FilterStep(cs[7..], query);
    FilterStep(cs[6..], query);
    FilterStep(cs[5..], query);
    FilterStep(cs[4..], query);
    FilterStep(cs[3..], query);
    FilterStep(cs[2..], query);
    FilterStep(cs[1..], query);
    FilterStep(cs, query);
  }

  /** One step of the filter, on the first coin. */
  lemma FilterStep(cs: seq<Crypto>, query: string)
    requires cs != []
    ensures Filter(cs, query) == (if MatchesQuery(cs[0], query) then [cs[0]] else []) + Filter(cs[1..], query)
  {
  }

  lemma CoinMatches(query: string)
    requires query == "coin"
    ensures MatchesQuery(Cryptos[0], query) && MatchesQuery(Cryptos[3], query) && MatchesQuery(Cryptos[6], query)
  {
    CoinAt(Cryptos[0], query, 3);
    CoinAt(Cryptos[3], query, 8);
    CoinAt(Cryptos[6], query, 4);
  }

  /** A coin whose name holds "coin", in any case, at `i` matches "coin". */
  lemma CoinAt(c: Crypto, query: string, i: nat)
    requires query == "coin"
    requires i + 4 <= |c.name| && forall k :: 0 <= k < 4 ==> LowerChar(c.name[i + k]) == query[k]
    ensures MatchesQuery(c, query)
  {
    LowerIs(query, query);
    var l := Lower(c.name);
    assert l[i..i + 4] == query;
    IncludesAt(l, query, i);
  }

  lemma CoinMisses(query: string)
    requires query == "coin"
    ensures !MatchesQuery(Cryptos[1], query) && !MatchesQuery(Cryptos[2], query) && !MatchesQuery(Cryptos[4], query)
    ensures !MatchesQuery(Cryptos[5], query) && !MatchesQuery(Cryptos[7], query)
  {
    forall i | i in {1, 2, 4, 5, 7} ensures !MatchesQuery(Cryptos[i], query) {
      NotIncluded(Lower(Cryptos[i].name), Lower(query));
      NotIncluded(Lower(Cryptos[i].symbol), Lower(query));
    }
  }

  /** "coin" does not occur in a text without a `c` followed by `o`. */
  lemma NotIncluded(s: string, q: string)
    requires q == "coin"
    requires forall i :: 0 <= i < |s| - 1 ==> !(s[i] == 'c' && s[i + 1] == 'o')
    ensures !Includes(s, q)
  {
    IncludesIff(s, q);
    forall i | 0 <= i <= |s| - |q| ensures !OccursAt(s, q, i) {
      assert s[i] == s[i..i + |q|][0] && s[i + 1] == s[i..i + |q|][1];
    }
  }

  // ---------------------------------------------------------------- table

  datatype Direction = Up | Down

  /** The change cell: an up arrow in green for a positive change, a down
      arrow in red otherwise (zero included), and the change without sign. */
  datatype Badge = Badge(direction: Direction, magnitude: real)

  function ChangeBadge(change: real): (b: Badge)
    ensures b.magnitude >= 0.0
    ensures b.direction == Up <==> change > 0.0
  {
    Badge(if change > 0.0 then Up else Down, if change < 0.0 then -change else change)
  }

  /** The badge loses nothing: the change is recovered from it. */
  lemma ChangeBadgeRoundTrip(change: real)
    ensures var b := ChangeBadge(change);
      change == if b.direction == Up then b.magnitude else -b.magnitude
  {
  }

  /** One row of the table as shown. */
  datatype RowView = RowView(number: nat, initial: string, crypto: Crypto, badge: Badge)

  /** `s.charAt(i)`: the character at `i` as a string, empty past the end. */
  function CharAt(s: string, i: nat): (c: string)
    ensures i < |s| ==> c == [s[i]]
    ensures i >= |s| ==> c == []
  {
    if i < |s| then [s[i]] else []
  }

  function TableRows(query: string): (rows: seq<RowView>)
    ensures |rows| == |Filter(Cryptos, query)|
  {
    var shown := Filter(Cryptos, query);
    seq(|shown|, k requires 0 <= k < |shown| =>
      RowView(k + 1, CharAt(shown[k].symbol, 0), shown[k], ChangeBadge(shown[k].change)))
  }

  /** Rows are numbered by their place among the rows shown, 1 to n, not by
      their place in the full table. */
  lemma RowNumbering(query: string)
    ensures forall k :: 0 <= k < |TableRows(query)| ==>
      TableRows(query)[k].number == k + 1 && TableRows(query)[k].crypto == Filter(Cryptos, query)[k]
  {
  }

  datatype Notation = Standard | Compact

  /** The currency format uses compact notation above one million. */
  function NotationFor(num: real): (n: Notation)
    ensures n == Compact <==> num > 1000000.0
  {
    if num > 1000000.0 then Compact else Standard
  }

  /** In the listed data every price is written in full and every market
      capitalisation and volume in compact form. */
  lemma ListedNotations()
    ensures forall i :: 0 <= i < |Cryptos| ==>
      && NotationFor(Cryptos[i].price) == Standard
      && NotationFor(Cryptos[i].marketCap as real) == Compact
      && NotationFor(Cryptos[i].volume as real) == Compact
  {
  }

  // ---------------------------------------------------------------- chart

  const Months := ["Jan", "Feb", "Mar", "Apr", "May", "Jun", "Jul", "Aug"]

  datatype Point = Point(x: string, y: real)

  /** Eight monthly points with the given values. */
  function Series(ys: seq<real>): (ps: seq<Point>)
    requires |ys| == 8
    ensures |ps| == 8 && forall i :: 0 <= i < 8 ==> ps[i] == Point(Months[i], ys[i])
  {
    seq(8, i requires 0 <= i < 8 => Point(Months[i], ys[i]))
  }

  datatype ChartEntry = ChartEntry(key: string, ys: seq<real>)

  const ChartTable := [
    ChartEntry("bitcoin", [42000.0, 39000.0, 45000.0, 52000.0, 49000.0, 55000.0, 58000.0, 61000.0]),
    ChartEntry("ethereum", [3200.0, 2800.0, 3100.0, 3500.0, 3300.0, 3600.0, 3400.0, 3324.0]),
    ChartEntry("solana", [100.0, 90.0, 110.0, 120.0, 105.0, 115.0, 125.0, 129.0]),
    ChartEntry("binance coin", [500.0, 480.0, 520.0, 540.0, 530.0, 550.0, 570.0, 584.0]),
    ChartEntry("cardano", [0.55, 0.52, 0.57, 0.60, 0.56, 0.59, 0.61, 0.58]),
    ChartEntry("xrp", [0.50, 0.48, 0.52, 0.54, 0.51, 0.55, 0.56, 0.58]),
    ChartEntry("dogecoin", [0.14, 0.13, 0.15, 0.16, 0.14, 0.15, 0.16, 0.15]),
    ChartEntry("forza", [0.020, 0.022, 0.025, 0.030, 0.033, 0.036, 0.038, 0.042])
  ]

  function LookupChart(table: seq<ChartEntry>, key: string): (r: Option<seq<real>>)
    ensures r.Some? <==> exists i :: 0 <= i < |table| && table[i].key == key
    ensures r.Some? ==> exists i :: 0 <= i < |table| && table[i].key == key && table[i].ys == r.value
  {
    if table == [] then None
    else if table[0].key == key then Some(table[0].ys)
    else
      var r := LookupChart(table[1..], key);
      if r.Some? then
        var i :| 0 <= i < |table[1..]| && table[1..][i].key == key && table[1..][i].ys == r.value;
        assert table[i + 1].key == key;
        r
      else
        assert forall i :: 1 <= i < |table| ==> table[i] == table[1..][i - 1];
        r
  }

  /** The made-up series for a coin without chart data: rising from 70% of
      the price to the price itself. */
  function FallbackValues(price: real): (ys: seq<real>)
    ensures |ys| == 8 && ys[0] == price * 0.7 && ys[7] == price
    ensures price >= 0.0 ==> forall i :: 0 <= i < 8 ==> ys[i] <= price
  {
    [price * 0.7, price * 0.8, price * 0.75, price * 0.85, price * 0.9, price * 0.95, price * 0.98, price]
  }

  /** The chart of `c`: its entry under its lower-cased name, or the
      fallback series. */
  function ChartFor(c: Crypto): (ps: seq<Point>)
    ensures |ps| == 8
  {
    var found := LookupChart(ChartTable, Lower(c.name));
    ChartKeysDistinct();
    if found.Some? then Series(found.value) else Series(FallbackValues(c.price))
  }

  /** Every listed coin has its own chart data: the fallback is never used
      for them. */
  lemma {:induction false} EveryListedCoinHasChart(i: nat)
    requires i < |Cryptos|
    ensures i < |ChartTable| && |ChartTable[i].ys| == 8
    ensures LookupChart(ChartTable, Lower(Cryptos[i].name)) == Some(ChartTable[i].ys)
    ensures ChartFor(Cryptos[i]) == Series(ChartTable[i].ys)
  {
    ChartKeysMatchNames();
    ChartKeysDistinct();
    LookupChartOfEntry(ChartTable, i);
  }

  lemma ChartKeysMatchNames()
    ensures |ChartTable| == |Cryptos|
    ensures forall i :: 0 <= i < |Cryptos| ==> ChartTable[i].key == Lower(Cryptos[i].name)
  {
    forall i | 0 <= i < |Cryptos| ensures ChartTable[i].key == Lower(Cryptos[i].name) {
      LowerIs(Cryptos[i].name, ChartTable[i].key);
    }
  }

  lemma ChartKeysDistinct()
    ensures forall i, j :: 0 <= i < j < |ChartTable| ==> ChartTable[i].key != ChartTable[j].key
    ensures forall i :: 0 <= i < |ChartTable| ==> |ChartTable[i].ys| == 8
  {
  }

  lemma {:induction false} LookupChartOfEntry(table: seq<ChartEntry>, i: nat)
    requires i < |table|
    requires forall a, b :: 0 <= a < b < |table| ==> table[a].key != table[b].key
    ensures LookupChart(table, table[i].key) == Some(table[i].ys)
  {
    if i > 0 {
      assert table[0].key != table[i].key;
      assert table[1..][i - 1] == table[i];
      LookupChartOfEntry(table[1..], i - 1);
    }
  }

  /** `Math.round`: the nearest integer, halves rounded up. */
  function Round(x: real): (n: int)
    ensures x - 0.5 < n as real <= x + 0.5
  {
    (x + 0.5).Floor
  }

  datatype Tick = Thousands(k: int) | Plain(v: real)

  /** The y-axis label of `value` when the selected coin costs `price`: in
      rounded thousands above 1000, as it is otherwise. */
  function TickLabel(price: real, value: real): (t: Tick)
    ensures t.Thousands? <==> price > 1000.0
    ensures t.Thousands? ==> value - 500.0 < 1000.0 * t.k as real <= value + 500.0
    ensures t.Plain? ==> t.v == value
  {
    if price > 1000.0 then Thousands(Round(value / 1000.0)) else Plain(value)
  }

  // ---------------------------------------------------------------- component

  class MarketView {
    var searchQuery: string
    var selected: Crypto

    ghost predicate Valid()
      reads this
    {
      selected in Cryptos
    }

    constructor()
      ensures Valid() && searchQuery == "" && selected == Cryptos[0]
    {
      searchQuery := "";
      selected := Cryptos[0];
    }

    function Visible(): (r: seq<Crypto>)
      reads this
      ensures forall c :: c in r ==> c in Cryptos && MatchesQuery(c, searchQuery)
    {
      FilterSound(Cryptos, searchQuery);
      Filter(Cryptos, searchQuery)
    }

    /** Typing in the search box filters the rows but keeps the selection,
        which may then name a coin that is no longer listed. */
    method Search(query: string)
      requires Valid()
      modifies this
      ensures Valid()
      ensures searchQuery == query && selected == old(selected)
    {
      searchQuery := query;
    }

    /** Clicking row `k` of the rows shown selects that coin. */
    method ClickRow(k: nat)
      requires Valid()
      requires k < |Visible()|
      modifies this
      ensures Valid()
      ensures searchQuery == old(searchQuery) && selected == Visible()[k]
      ensures TableRows(searchQuery)[k].crypto == selected
    {
      selected := Visible()[k];
      RowNumbering(searchQuery);
    }

    /** The chart of the selection is always its own recorded series. */
    lemma SelectedChart()
      requires Valid()
      ensures exists i :: 0 <= i < |Cryptos| && Cryptos[i] == selected && i < |ChartTable|
                          && |ChartTable[i].ys| == 8 && ChartFor(selected) == Series(ChartTable[i].ys)
    {
      var i :| 0 <= i < |Cryptos| && Cryptos[i] == selected;
      EveryListedCoinHasChart(i);
    }
  }
}
