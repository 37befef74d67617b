/** The ownership summarisers: `get_insider_activity_summary` and
    `get_institutional_ownership_summary`, once the provider table has been
    fetched. */
module Ownership {
  import opened Wrappers
  import opened Text
  import opened Dates
  import opened Stats
  import opened Sorting

  /** A stored fraction shown as a percentage; NaN stays NaN. */
  function Percent(fraction: Option<real>): (p: Option<real>)
    ensures p.None? <==> fraction.None?
    ensures p.Some? ==> p.value == 100.0 * fraction.value
  {
    match fraction
    case None => None
    case Some(v) => Some(v * 100.0)
  }

  /** Python's `int()` on a float: truncation toward zero. */
  function Truncate(x: real): (n: int)
    ensures x >= 0.0 ==> 0.0 <= n as real <= x < n as real + 1.0
    ensures x < 0.0 ==> n as real - 1.0 < x <= n as real <= 0.0
  {
    if x >= 0.0 then x.Floor else -((-x).Floor)
  }

  // ---------------------------------------------------------------------
  // Insider activity

  /** One row of the insider purchases table: the label in the first
      column and the `Shares` value (`None` is NaN). */
  datatype InsiderRow = InsiderRow(metric: string, shares: Option<real>)

  /** The insider purchases table: the first column's header, whether a
      `Shares` column exists, and the rows. */
  datatype InsiderTable = InsiderTable(header: string, hasShares: bool, rows: seq<InsiderRow>)

  const PurchasesLabel := "Purchases"
  const SalesLabel := "Sales"
  const NetSharesLabel := "Net Shares Purchased (Sold)"
  const PercentNetLabel := "% Net Shares Purchased (Sold)"
  const PercentBuyLabel := "% Buy Shares"
  const PercentSellLabel := "% Sell Shares"
  const TotalHeldLabel := "Total Insider Shares Held"

  predicate HasLabel(rows: seq<InsiderRow>, wanted: string) {
    exists i :: 0 <= i < |rows| && rows[i].metric == wanted
  }

  /** Every label the summary looks up is in the table. */
  predicate HasAllLabels(rows: seq<InsiderRow>) {
    && HasLabel(rows, PurchasesLabel)
    && HasLabel(rows, SalesLabel)
    && HasLabel(rows, NetSharesLabel)
    && HasLabel(rows, PercentNetLabel)
    && HasLabel(rows, PercentBuyLabel)
    && HasLabel(rows, PercentSellLabel)
    && HasLabel(rows, TotalHeldLabel)
  }

  /** The position of the first row carrying `wanted`, or `|rows|` when none does. */
  function FirstIndex(rows: seq<InsiderRow>, wanted: string): (i: nat)
    ensures i <= |rows|
    ensures forall j :: 0 <= j < i ==> rows[j].metric != wanted
    ensures i < |rows| ==> rows[i].metric == wanted
    decreases |rows|
  {
    if rows == [] || rows[0].metric == wanted then 0
    else 1 + FirstIndex(rows[1..], wanted)
  }

  /** The first row carrying a label is found. */
  lemma FirstIndexAt(rows: seq<InsiderRow>, wanted: string, k: nat)
    requires k < |rows| && rows[k].metric == wanted
    requires forall j :: 0 <= j < k ==> rows[j].metric != wanted
    ensures FirstIndex(rows, wanted) == k
  {
  }

  /** `df.loc[df.iloc[:, 0] == wanted, 'Shares'].values[0]`: the value of the
      first row with that label, or `None` when `.values` is empty. */
  function Lookup(rows: seq<InsiderRow>, wanted: string): (r: Option<Option<real>>)
    ensures r.None? <==> !HasLabel(rows, wanted)
    ensures r.Some? ==>
      exists i :: 0 <= i < |rows| && rows[i].metric == wanted && r.value == rows[i].shares
        && (forall j :: 0 <= j < i ==> rows[j].metric != wanted)
  {
    var i := FirstIndex(rows, wanted);
    if i < |rows| then Some(rows[i].shares) else None
  }

  /** The first column header, unless it is pandas' placeholder for an
      unnamed column. */
  function ReportedHeader(header: string): (d: Option<string>)
    ensures d.None? <==> Contains(header, "Unnamed")
    ensures d.Some? ==> d.value == header
  {
    if Contains(header, "Unnamed") then None else Some(header)
  }

  /** The JSON summary; a percentage is `None` when the stored fraction is NaN. */
  datatype InsiderSummary = InsiderSummary(
    ticker: string,
    reportedDate: Option<string>,
    purchases: int,
    sales: int,
    netShares: int,
    percentNetChange: Option<real>,
    percentBuy: Option<real>,
    percentSell: Option<real>,
    totalSharesHeld: int,
    netBias: string)

  function NoInsiderMessage(ticker: string): string {
    "No insider activity available for '" + ticker + "'"
  }

  /** `str(KeyError('Shares'))`. */
  const MissingSharesMessage := "'Shares'"
  /** `.values[0]` on an empty selection. */
  const MissingLabelMessage := "index 0 is out of bounds for axis 0 with size 0"
  /** `int()` of a NaN share count. */
  const NaNCountMessage := "cannot convert float NaN to integer"

  /** The table is present and has rows. */
  predicate HasInsiderRows(table: Option<InsiderTable>) {
    table.Some? && table.value.rows != []
  }

  /** Every label is in the table and the four share counts are not NaN. */
  predicate InsiderComplete(t: InsiderTable) {
    && HasAllLabels(t.rows)
    && Lookup(t.rows, PurchasesLabel).value.Some?
    && Lookup(t.rows, SalesLabel).value.Some?
    && Lookup(t.rows, NetSharesLabel).value.Some?
    && Lookup(t.rows, TotalHeldLabel).value.Some?
  }

  /** `get_insider_activity_summary` after the fetch (`None` when the
      provider returned no table). */
  function InsiderActivitySummary(ticker: string, table: Option<InsiderTable>): (r: Result<InsiderSummary>)
    ensures !HasInsiderRows(table) ==> r == Err(NoInsiderMessage(ticker))
    ensures HasInsiderRows(table) && !table.value.hasShares ==> r == Err(MissingSharesMessage)
    ensures HasInsiderRows(table) && table.value.hasShares
      && !HasAllLabels(table.value.rows)
      ==> r == Err(MissingLabelMessage)
    ensures HasInsiderRows(table) && table.value.hasShares
      && HasAllLabels(table.value.rows) && !InsiderComplete(table.value)
      ==> r == Err(NaNCountMessage)
    ensures r.Ok? <==> HasInsiderRows(table) && table.value.hasShares && InsiderComplete(table.value)
    ensures r.Ok? ==> r.value.ticker == ticker
    ensures r.Ok? ==> r.value.reportedDate == ReportedHeader(table.value.header)
    ensures r.Ok? ==>
      var rows := table.value.rows;
      && r.value.purchases == Truncate(Lookup(rows, PurchasesLabel).value.value)
      && r.value.sales == Truncate(Lookup(rows, SalesLabel).value.value)
      && r.value.netShares == Truncate(Lookup(rows, NetSharesLabel).value.value)
      && r.value.totalSharesHeld == Truncate(Lookup(rows, TotalHeldLabel).value.value)
      && r.value.percentNetChange == Percent(Lookup(rows, PercentNetLabel).value)
      && r.value.percentBuy == Percent(Lookup(rows, PercentBuyLabel).value)
      && r.value.percentSell == Percent(Lookup(rows, PercentSellLabel).value)
      && (r.value.netBias == "Buying" <==> Lookup(rows, NetSharesLabel).value.value > 0.0)
      && (r.value.netBias == "Selling" <==> Lookup(rows, NetSharesLabel).value.value <= 0.0)
  {
    if !HasInsiderRows(table) then Err(NoInsiderMessage(ticker))
    else
      var t := table.value;
      if !t.hasShares then Err(MissingSharesMessage)
      else
        var purchases := Lookup(t.rows, PurchasesLabel);
        var sales := Lookup(t.rows, SalesLabel);
        var net := Lookup(t.rows, NetSharesLabel);
        var pctNet := Lookup(t.rows, PercentNetLabel);
        var pctBuy := Lookup(t.rows, PercentBuyLabel);
        var pctSell := Lookup(t.rows, PercentSellLabel);
        var total := Lookup(t.rows, TotalHeldLabel);
        if purchases.None? || sales.None? || net.None? || pctNet.None?
          || pctBuy.None? || pctSell.None? || total.None? then
          Err(MissingLabelMessage)
        else if purchases.value.None? || sales.value.None? || net.value.None? || total.value.None? then
          Err(NaNCountMessage)
        else
          Ok(InsiderSummary(
               ticker,
               ReportedHeader(t.header),
               Truncate(purchases.value.value),
               Truncate(sales.value.value),
               Truncate(net.value.value),
               Percent(pctNet.value),
               Percent(pctBuy.value),
               Percent(pctSell.value),
               Truncate(total.value.value),
               if net.value.value > 0.0 then "Buying" else "Selling"))
  }

  /** The bias never contradicts the reported (truncated) net share count:
      a positive count is Buying and a negative one Selling. */
  lemma BiasAgreesWithNetShares(ticker: string, table: Option<InsiderTable>)
    requires InsiderActivitySummary(ticker, table).Ok?
    ensures var s := InsiderActivitySummary(ticker, table).value;
      (s.netShares > 0 ==> s.netBias == "Buying") && (s.netShares < 0 ==> s.netBias == "Selling")
      && (s.netBias == "Buying" ==> s.netShares >= 0)
  {
    var net := Lookup(table.value.rows, NetSharesLabel).value.value;
    if net > 0.0 {
      assert Truncate(net) >= 0;
    } else {
      assert Truncate(net) <= 0;
    }
  }

  /** The header pandas gives a column without a name. */
  const SampleHeader := "Unnamed: 0"

  /** A complete insider table whose net share count is `net`. */
  function SampleInsiderTable(net: real): InsiderTable {
    InsiderTable(SampleHeader, true, [
      InsiderRow(PurchasesLabel, Some(150.0)),
      InsiderRow(SalesLabel, Some(50.0)),
      InsiderRow(NetSharesLabel, Some(net)),
      InsiderRow(PercentNetLabel, Some(0.25)),
      InsiderRow(PercentBuyLabel, Some(0.5)),
      InsiderRow(PercentSellLabel, None),
      InsiderRow(TotalHeldLabel, Some(1000.0))])
  }

  /** Net shares of 100 is Buying; fractions show as percentages, a NaN
      fraction stays NaN, and the placeholder header gives no date. */
  lemma BuyingExample()
    ensures InsiderActivitySummary("T", Some(SampleInsiderTable(100.0)))
      == Ok(InsiderSummary("T", None, 150, 50, 100, Some(25.0), Some(50.0), None, 1000, "Buying"))
  {
    SampleLookupsHold(100.0);
    SampleHeaderUnnamed();
    var t := SampleInsiderTable(100.0);
    assert InsiderComplete(t);
    assert ReportedHeader(t.header) == None;
    assert Truncate(150.0) == 150 && Truncate(50.0) == 50 && Truncate(100.0) == 100 && Truncate(1000.0) == 1000;
    assert Percent(Some(0.25)) == Some(25.0) && Percent(Some(0.5)) == Some(50.0);
    var r := InsiderActivitySummary("T", Some(t));
    assert r.Ok?;
    assert r.value.purchases == 150 && r.value.sales == 50 && r.value.netShares == 100;
    assert r.value.totalSharesHeld == 1000 && r.value.netBias == "Buying";
    assert r.value.percentNetChange == Some(25.0) && r.value.percentBuy == Some(50.0) && r.value.percentSell == None;
  }

  /** Net shares of 0 is Selling. */
  lemma SellingExample()
    ensures InsiderActivitySummary("T", Some(SampleInsiderTable(0.0))).Ok?
    ensures InsiderActivitySummary("T", Some(SampleInsiderTable(0.0))).value.netBias == "Selling"
  {
    SampleLookupsHold(0.0);
    assert InsiderComplete(SampleInsiderTable(0.0));
  }

  lemma SampleHeaderUnnamed()
    ensures Contains(SampleHeader, "Unnamed")
  {
    assert SampleHeader[0..7] == "Unnamed";
    assert OccursAt(SampleHeader, "Unnamed", 0);
  }

  predicate SampleLookups(net: real) {
    var rows := SampleInsiderTable(net).rows;
    && Lookup(rows, PurchasesLabel) == Some(Some(150.0))
    && Lookup(rows, SalesLabel) == Some(Some(50.0))
    && Lookup(rows, NetSharesLabel) == Some(Some(net))
    && Lookup(rows, PercentNetLabel) == Some(Some(0.25))
    && Lookup(rows, PercentBuyLabel) == Some(Some(0.5))
    && Lookup(rows, PercentSellLabel) == Some(None)
    && Lookup(rows, TotalHeldLabel) == Some(Some(1000.0))
  }

  lemma SampleLookupsHold(net: real)
    ensures SampleLookups(net)
  {
    var rows := SampleInsiderTable(net).rows;
    FirstIndexAt(rows, PurchasesLabel, 0);
    FirstIndexAt(rows, SalesLabel, 1);
    FirstIndexAt(rows, NetSharesLabel, 2);
    FirstIndexAt(rows, PercentNetLabel, 3);
    FirstIndexAt(rows, PercentBuyLabel, 4);
    FirstIndexAt(rows, PercentSellLabel, 5);
    FirstIndexAt(rows, TotalHeldLabel, 6);
  }

  // ---------------------------------------------------------------------
  // Institutional ownership

  /** One holder row: `pctHeld` is a fraction; `pctChange` (`None` is NaN)
      and `dateReported` (`None` is NaT) matter only when their column exists. */
  datatype HolderRow = HolderRow(holder: string, pctHeld: real, pctChange: Option<real>, dateReported: Option<Date>)

  /** The institutional holders table: which optional columns exist, and the rows. */
  datatype HolderTable = HolderTable(hasChange: bool, hasDate: bool, rows: seq<HolderRow>)

  /** A record of `Top_5_Holders`; `pctChange` appears only when the column exists. */
  datatype TopHolder =
    | TopHolder(holder: string, pctHeld: real)
    | TopHolderWithChange(holder: string, pctHeld: real, pctChange: Option<real>)

  const TopCount := 5

  /** The sort key for `sort_values(by='pctHeld', ascending=False)`. */
  function HeldKey(r: HolderRow): real {
    -r.pctHeld
  }

  /** `df_sorted.head(5)`. */
  function TopRows(rows: seq<HolderRow>): (top: seq<HolderRow>)
    ensures |top| == if |rows| < TopCount then |rows| else TopCount
  {
    var s := SortBy(rows, HeldKey);
    if |s| <= TopCount then s else s[..TopCount]
  }

  /** The rows left out of the top ones, with their multiplicity. */
  function Omitted(rows: seq<HolderRow>): multiset<HolderRow> {
    multiset(rows) - multiset(TopRows(rows))
  }

  /** A prefix of a list in descending `pctHeld` order: it is part of the
      list, descending itself, and nothing after it holds more. */
  lemma SortedPrefix(s: seq<HolderRow>, top: seq<HolderRow>)
    requires SortedBy(s, HeldKey) && |top| <= |s| && top == s[..|top|]
    ensures multiset(top) <= multiset(s)
    ensures forall i, j :: 0 <= i < j < |top| ==> top[i].pctHeld >= top[j].pctHeld
    ensures forall o, i :: o in multiset(s) - multiset(top) && 0 <= i < |top| ==> o.pctHeld <= top[i].pctHeld
  {
    var k := |top|;
    assert s == top + s[k..];
    assert multiset(s) == multiset(top) + multiset(s[k..]);
    forall i, j | 0 <= i < j < k ensures top[i].pctHeld >= top[j].pctHeld {
      assert HeldKey(s[i]) <= HeldKey(s[j]);
    }
    forall o, i | o in multiset(s) - multiset(top) && 0 <= i < k ensures o.pctHeld <= top[i].pctHeld {
      assert o in s[k..];
      var jj :| 0 <= jj < |s[k..]| && s[k..][jj] == o;
      assert s[k + jj] == o;
      assert HeldKey(s[i]) <= HeldKey(s[k + jj]);
    }
  }

  /** The top rows are rows of the table, in descending `pctHeld` order, and
      no row left out holds more than any row shown. */
  lemma TopRowsSpec(rows: seq<HolderRow>)
    ensures multiset(TopRows(rows)) <= multiset(rows)
    ensures forall i, j :: 0 <= i < j < |TopRows(rows)| ==> TopRows(rows)[i].pctHeld >= TopRows(rows)[j].pctHeld
    ensures forall o, i :: o in Omitted(rows) && 0 <= i < |TopRows(rows)| ==> o.pctHeld <= TopRows(rows)[i].pctHeld
  {
    var s := SortBy(rows, HeldKey);
    var top := TopRows(rows);
    SortBySorted(rows, HeldKey);
    SortByMultiset(rows, HeldKey);
    assert top == s[..|top|];
    SortedPrefix(s, top);
  }

  /** A top row as `to_dict(orient='records')` shows it. */
  function Display(r: HolderRow, hasChange: bool): (h: TopHolder)
    ensures h.holder == r.holder && h.pctHeld == r.pctHeld
    ensures h.TopHolderWithChange? <==> hasChange
    ensures h.TopHolderWithChange? ==> h.pctChange == r.pctChange
  {
    if hasChange then TopHolderWithChange(r.holder, r.pctHeld, r.pctChange) else TopHolder(r.holder, r.pctHeld)
  }

  function TopHolders(t: HolderTable): (hs: seq<TopHolder>)
    ensures |hs| == |TopRows(t.rows)|
    ensures forall i :: 0 <= i < |hs| ==> hs[i] == Display(TopRows(t.rows)[i], t.hasChange)
  {
    var top := TopRows(t.rows);
    seq(|top|, i requires 0 <= i < |top| => Display(top[i], t.hasChange))
  }

  /** `df['pctHeld'].sum()`. */
  function HeldSum(rows: seq<HolderRow>): real
    decreases |rows|
  {
    if rows == [] then 0.0 else HeldSum(rows[..|rows| - 1]) + rows[|rows| - 1].pctHeld
  }

  lemma {:induction false} HeldSumAppend(a: seq<HolderRow>, b: seq<HolderRow>)
    ensures HeldSum(a + b) == HeldSum(a) + HeldSum(b)
    decreases |b|
  {
    if b == [] {
      assert a + b == a;
    } else {
      var front := b[..|b| - 1];
      assert (a + b)[..|a + b| - 1] == a + front;
      HeldSumAppend(a, front);
    }
  }

  /** Taking one row out of a list removes one copy of it from the multiset. */
  lemma RemoveAtMultiset(b: seq<HolderRow>, i: nat)
    requires i < |b|
    ensures multiset(b[..i] + b[i + 1..]) == multiset(b) - multiset{b[i]}
  {
    assert b == b[..i] + [b[i]] + b[i + 1..];
  }

  /** Taking one row out of a list removes its holding from the sum. */
  lemma RemoveAtSum(b: seq<HolderRow>, i: nat)
    requires i < |b|
    ensures HeldSum(b) == HeldSum(b[..i] + b[i + 1..]) + b[i].pctHeld
  {
    var x := b[i];
    assert b == b[..i] + ([x] + b[i + 1..]);
    HeldSumAppend(b[..i], [x] + b[i + 1..]);
    HeldSumAppend([x], b[i + 1..]);
    HeldSumAppend(b[..i], b[i + 1..]);
    assert HeldSum([x]) == x.pctHeld by {
      assert [x][..0] == [];
    }
  }

  /** The sum does not depend on the order of the rows. */
  lemma {:induction false} HeldSumPermutation(a: seq<HolderRow>, b: seq<HolderRow>)
    requires multiset(a) == multiset(b)
    ensures HeldSum(a) == HeldSum(b)
    decreases |a|
  {
    if a == [] {
      assert |b| == |multiset(b)| == 0;
    } else {
      var front, x := a[..|a| - 1], a[|a| - 1];
      assert a == front + [x];
      assert multiset(front) == multiset(a) - multiset{x};
      assert x in multiset(b);
      var i :| 0 <= i < |b| && b[i] == x;
      RemoveAtMultiset(b, i);
      RemoveAtSum(b, i);
      HeldSumPermutation(front, b[..i] + b[i + 1..]);
    }
  }

  /** The total covers every row, not just the top ones: with non-negative
      holdings it is at least the sum of the top rows. */
  lemma TotalCoversTop(rows: seq<HolderRow>)
    requires forall i :: 0 <= i < |rows| ==> rows[i].pctHeld >= 0.0
    ensures HeldSum(TopRows(rows)) <= HeldSum(rows)
  {
    var s := SortBy(rows, HeldKey);
    var k := |TopRows(rows)|;
    SortByMultiset(rows, HeldKey);
    HeldSumPermutation(s, rows);
    assert TopRows(rows) == s[..k];
    PrefixHeldSum(s, k);
  }

  /** With non-negative holdings a prefix holds no more than the whole. */
  lemma PrefixHeldSum(s: seq<HolderRow>, k: nat)
    requires k <= |s|
    requires forall r :: r in multiset(s) ==> r.pctHeld >= 0.0
    ensures HeldSum(s[..k]) <= HeldSum(s)
  {
    assert s == s[..k] + s[k..];
    HeldSumAppend(s[..k], s[k..]);
    forall r | r in s[k..] ensures r.pctHeld >= 0.0 {
      assert r in multiset(s);
    }
    NonNegativeHeldSum(s[k..]);
  }

  lemma {:induction false} NonNegativeHeldSum(rows: seq<HolderRow>)
    requires forall r :: r in rows ==> r.pctHeld >= 0.0
    ensures HeldSum(rows) >= 0.0
    decreases |rows|
  {
    if rows != [] {
      var front := rows[..|rows| - 1];
      assert forall r :: r in front ==> r in rows;
      NonNegativeHeldSum(front);
    }
  }

  /** The `pctChange` column. */
  function Changes(rows: seq<HolderRow>): (cs: seq<Option<real>>)
    ensures |cs| == |rows|
    ensures forall i :: 0 <= i < |rows| ==> cs[i] == rows[i].pctChange
  {
    seq(|rows|, i requires 0 <= i < |rows| => rows[i].pctChange)
  }

  predicate Increased(r: HolderRow) {
    r.pctChange.Some? && r.pctChange.value > 0.0
  }

  predicate Decreased(r: HolderRow) {
    r.pctChange.Some? && r.pctChange.value < 0.0
  }

  /** `df[df['pctChange'] > 0].shape[0]`. */
  function CountIncreased(rows: seq<HolderRow>): (n: nat)
    ensures n <= |rows|
    ensures n == 0 <==> forall i :: 0 <= i < |rows| ==> !Increased(rows[i])
    decreases |rows|
  {
    if rows == [] then 0
    else
      var front := rows[..|rows| - 1];
      assert forall i :: 0 <= i < |front| ==> front[i] == rows[i];
      CountIncreased(front) + if Increased(rows[|rows| - 1]) then 1 else 0
  }

  /** `df[df['pctChange'] < 0].shape[0]`. */
  function CountDecreased(rows: seq<HolderRow>): (n: nat)
    ensures n <= |rows|
    ensures n == 0 <==> forall i :: 0 <= i < |rows| ==> !Decreased(rows[i])
    decreases |rows|
  {
    if rows == [] then 0
    else
      var front := rows[..|rows| - 1];
      assert forall i :: 0 <= i < |front| ==> front[i] == rows[i];
      CountDecreased(front) + if Decreased(rows[|rows| - 1]) then 1 else 0
  }

  /** No row is both increasing and decreasing. */
  lemma {:induction false} CountsBound(rows: seq<HolderRow>)
    ensures CountIncreased(rows) + CountDecreased(rows) <= |rows|
    decreases |rows|
  {
    if rows != [] {
      CountsBound(rows[..|rows| - 1]);
    }
  }

  /** The present report dates. */
  function Dated(rows: seq<HolderRow>): (ds: seq<Date>)
    ensures forall d :: d in ds <==> exists i :: 0 <= i < |rows| && rows[i].dateReported == Some(d)
    decreases |rows|
  {
    if rows == [] then []
    else
      var front, last := rows[..|rows| - 1], rows[|rows| - 1];
      assert forall i :: 0 <= i < |front| ==> front[i] == rows[i];
      Dated(front) + match last.dateReported case Some(d) => [d] case None => []
  }

  /** The latest date of a non-empty list. */
  function Latest(ds: seq<Date>): (d: Date)
    requires ds != []
    ensures d in ds
    ensures forall i :: 0 <= i < |ds| ==> !Before(d, ds[i])
    decreases |ds|
  {
    if |ds| == 1 then ds[0]
    else
      var front, last := ds[..|ds| - 1], ds[|ds| - 1];
      var m := Latest(front);
      assert forall i :: 0 <= i < |front| ==> front[i] == ds[i];
      if Before(m, last) then last else m
  }

  /** The JSON summary; the average change is `None` when it is NaN. */
  datatype InstitutionalSummary = InstitutionalSummary(
    ticker: string,
    reportedDate: Option<Date>,
    topHolders: seq<TopHolder>,
    totalPercentHeld: real,
    averagePercentChange: Option<real>,
    increasing: nat,
    decreasing: nat,
    bias: string)

  function NoHolderMessage(ticker: string): string {
    "No institutional holder data available for '" + ticker + "'"
  }

  /** `strftime` on the NaT that `max()` returns when every date is missing. */
  const NaTMessage := "NaTType does not support strftime"

  /** `df['pctChange'].mean()` as a fraction, or 0.0 without the column. */
  function AverageChange(t: HolderTable): (a: Option<real>)
    ensures !t.hasChange ==> a == Some(0.0)
    ensures t.hasChange ==> (a.None? <==> forall i :: 0 <= i < |t.rows| ==> t.rows[i].pctChange.None?)
    ensures t.hasChange && a.Some? ==>
      exists i :: 0 <= i < |t.rows| && t.rows[i].pctChange.Some? && t.rows[i].pctChange.value <= a.value
    ensures t.hasChange && a.Some? ==>
      exists i :: 0 <= i < |t.rows| && t.rows[i].pctChange.Some? && a.value <= t.rows[i].pctChange.value
  {
    if t.hasChange then AggregateOf(Changes(t.rows)).mean else Some(0.0)
  }

  /** `get_institutional_ownership_summary` after the fetch (`None` when
      the provider returned no table). */
  function InstitutionalOwnershipSummary(ticker: string, table: Option<HolderTable>): (r: Result<InstitutionalSummary>)
    ensures table.None? || table.value.rows == [] ==> r == Err(NoHolderMessage(ticker))
    ensures table.Some? && table.value.rows != [] && table.value.hasDate && Dated(table.value.rows) == []
      ==> r == Err(NaTMessage)
    ensures r.Ok? <==> table.Some? && table.value.rows != [] && (!table.value.hasDate || Dated(table.value.rows) != [])
    ensures r.Ok? ==>
      var t := table.value;
      && r.value.ticker == ticker
      && r.value.topHolders == TopHolders(t)
      && r.value.totalPercentHeld == 100.0 * HeldSum(t.rows)
      && r.value.averagePercentChange == Percent(AverageChange(t))
      && r.value.increasing + r.value.decreasing <= |t.rows|
      && (!t.hasChange ==> r.value.averagePercentChange == Some(0.0) && r.value.increasing == 0 && r.value.decreasing == 0)
      && (t.hasChange ==> r.value.increasing == CountIncreased(t.rows) && r.value.decreasing == CountDecreased(t.rows))
      && (r.value.bias == "Accumulating" <==> AverageChange(t).Some? && AverageChange(t).value > 0.0)
      && (r.value.bias == "Trimming" <==> !(AverageChange(t).Some? && AverageChange(t).value > 0.0))
      && (r.value.reportedDate.None? <==> !t.hasDate)
      && (r.value.reportedDate.Some? ==>
            r.value.reportedDate.value in Dated(t.rows)
            && forall d :: d in Dated(t.rows) ==> !Before(r.value.reportedDate.value, d))
  {
    if table.None? || table.value.rows == [] then Err(NoHolderMessage(ticker))
    else
      var t := table.value;
      var avg := AverageChange(t);
      var increasing := if t.hasChange then CountIncreased(t.rows) else 0;
      var decreasing := if t.hasChange then CountDecreased(t.rows) else 0;
      CountsBound(t.rows);
      if t.hasDate && Dated(t.rows) == [] then Err(NaTMessage)
      else
        var latest := if t.hasDate then Some(Latest(Dated(t.rows))) else None;
        Ok(InstitutionalSummary(
             ticker,
             latest,
             TopHolders(t),
             100.0 * HeldSum(t.rows),
             Percent(avg),
             increasing,
             decreasing,
             if avg.Some? && avg.value > 0.0 then "Accumulating" else "Trimming"))
  }

  /** An accumulating bias needs at least one holder whose stake grew. */
  lemma AccumulatingHasIncrease(ticker: string, t: HolderTable)
    ensures var r := InstitutionalOwnershipSummary(ticker, Some(t));
      r.Ok? && r.value.bias == "Accumulating" ==> t.hasChange && r.value.increasing > 0
  {
    var r := InstitutionalOwnershipSummary(ticker, Some(t));
    if r.Ok? && r.value.bias == "Accumulating" {
      var a := AverageChange(t);
      assert a.Some? && a.value > 0.0;
      assert t.hasChange;
      var i :| 0 <= i < |t.rows| && t.rows[i].pctChange.Some? && a.value <= t.rows[i].pctChange.value;
      assert Increased(t.rows[i]);
    }
  }
}
