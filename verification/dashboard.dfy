/**
 * The ledger analytics of the dashboard (dashboard.tsx:40-115, 144-165):
 * the counters, the revenue series of the last seven days and the mix of
 * payment methods.  A transaction's date is its calendar day number `day`;
 * "today" is a parameter.  The series buckets are keyed by a day's label
 * (`dd MMM` in the source, without the year), given as a function `dayLabel`,
 * so two days with the same label share a bucket exactly as they do there.
 */
module Dashboard {
  import opened Seqs
  import opened Domain

  // ---------------------------------------------------------------------
  // Counters (dashboard.tsx:40-75)
  // ---------------------------------------------------------------------

  datatype Stats = Stats(
    totalTransactions: int,
    todayTransactions: int,
    totalRevenue: int,
    todayRevenue: int,
    totalItems: int)

  /** `transactions.reduce((sum, t) => sum + t.total, 0)`. */
  function Revenue(txs: seq<Transaction>): int {
    if txs == [] then 0 else Revenue(txs[..|txs| - 1]) + txs[|txs| - 1].total
  }

  /** Sum over the ledger of the quantities of every line. */
  function ItemsSold(txs: seq<Transaction>): int {
    if txs == [] then 0 else ItemsSold(txs[..|txs| - 1]) + TotalItems(txs[|txs| - 1].items)
  }

  /** The transactions dated on calendar day `day`, in ledger order. */
  function OnDay(txs: seq<Transaction>, day: int): (r: seq<Transaction>)
    ensures SubsequenceOf(r, txs)
    ensures forall i :: 0 <= i < |r| ==> r[i].day == day && r[i] in txs
    ensures forall i :: 0 <= i < |txs| && txs[i].day == day ==> txs[i] in r
  {
    Filter(txs, (t: Transaction) => t.day == day)
  }

  /** `stats`. */
  function ComputeStats(txs: seq<Transaction>, today: int): (s: Stats)
    ensures s.totalTransactions == |txs|
    ensures 0 <= s.todayTransactions <= s.totalTransactions
    ensures (forall i :: 0 <= i < |txs| ==> txs[i].day != today) ==>
              s.todayTransactions == 0 && s.todayRevenue == 0
    ensures txs == [] ==> s == Stats(0, 0, 0, 0, 0)
    ensures s.totalRevenue == Revenue(txs) && s.totalItems == ItemsSold(txs)
    ensures s.todayTransactions == |OnDay(txs, today)| && s.todayRevenue == Revenue(OnDay(txs, today))
  {
    var todays := OnDay(txs, today);
    assert todays != [] ==> todays[0] in txs;
    Stats(|txs|, |todays|, Revenue(txs), Revenue(todays), ItemsSold(txs))
  }

  /** Revenue splits over a concatenation of ledgers. */
  lemma {:induction false} RevenueConcat(a: seq<Transaction>, b: seq<Transaction>)
    ensures Revenue(a + b) == Revenue(a) + Revenue(b)
    ensures ItemsSold(a + b) == ItemsSold(a) + ItemsSold(b)
  {
    if b == [] {
      assert a + b == a;
    } else {
      var b' := b[..|b| - 1];
      assert (a + b)[..|a + b| - 1] == a + b';
      RevenueConcat(a, b');
    }
  }

  /** A ledger whose totals are all non-negative has non-negative revenue. */
  predicate NonNegativeTotals(txs: seq<Transaction>) {
    forall i :: 0 <= i < |txs| ==> txs[i].total >= 0
  }

  /** Today's revenue never exceeds the all-time revenue when no total is negative. */
  lemma TodayRevenueBounded(txs: seq<Transaction>, today: int)
    requires NonNegativeTotals(txs)
    ensures 0 <= ComputeStats(txs, today).todayRevenue <= ComputeStats(txs, today).totalRevenue
  {
    DayRevenueBounded(txs, today);
  }

  /** The revenue of one day's sales is between 0 and the revenue of the whole ledger. */
  lemma {:induction false} DayRevenueBounded(txs: seq<Transaction>, day: int)
    requires NonNegativeTotals(txs)
    ensures 0 <= Revenue(OnDay(txs, day)) <= Revenue(txs)
  {
    if txs != [] {
      var init, t := txs[..|txs| - 1], txs[|txs| - 1];
      DayRevenueBounded(init, day);
      assert txs == init + [t];
      var p := (x: Transaction) => x.day == day;
      FilterConcat(init, [t], p);
      RevenueConcat(Filter(init, p), Filter([t], p));
      assert Filter([t], p) == if t.day == day then [t] else [] by {
        assert [t][..0] == [];
      }
    }
  }

  /** When every sale was made today the today counters equal the all-time ones. */
  lemma AllTodayMeansTotals(txs: seq<Transaction>, today: int)
    requires forall i :: 0 <= i < |txs| ==> txs[i].day == today
    ensures ComputeStats(txs, today).todayTransactions == |txs|
    ensures ComputeStats(txs, today).todayRevenue == ComputeStats(txs, today).totalRevenue
  {
    FilterKeepsAll(txs, (t: Transaction) => t.day == today);
  }

  /** A new sale at the front of the ledger adds one transaction, its total and its quantities. */
  lemma StatsOfNewSale(tx: Transaction, txs: seq<Transaction>, today: int)
    ensures var s, s' := ComputeStats(txs, today), ComputeStats([tx] + txs, today);
      && s'.totalTransactions == s.totalTransactions + 1
      && s'.totalRevenue == s.totalRevenue + tx.total
      && s'.totalItems == s.totalItems + TotalItems(tx.items)
  {
    NewSaleCounters(tx, txs);
  }

  /** A sale put at the head of the ledger adds its total to the revenue and its units to the items sold. */
  lemma NewSaleCounters(tx: Transaction, txs: seq<Transaction>)
    ensures Revenue([tx] + txs) == Revenue(txs) + tx.total
    ensures ItemsSold([tx] + txs) == ItemsSold(txs) + TotalItems(tx.items)
  {
    RevenueConcat([tx], txs);
    assert [tx][..0] == [];
  }

  // ---------------------------------------------------------------------
  // Seven-day series (dashboard.tsx:77-115)
  // ---------------------------------------------------------------------

  /** One point of the series: a bucket label and the revenue in it. */
  datatype DaySales = DaySales(date: string, total: int)

  /** The labels of today-6 .. today, oldest first (`last7Days`). */
  function WindowLabels(today: int, dayLabel: int -> string): (w: seq<string>)
    ensures |w| == 7
  {
    seq(7, i requires 0 <= i < 7 => dayLabel(today - 6 + i))
  }

  /** The total of the sales whose day carries the label `key`. */
  function LabelSales(txs: seq<Transaction>, dayLabel: int -> string, key: string): int {
    if txs == [] then 0
    else
      var t := txs[|txs| - 1];
      LabelSales(txs[..|txs| - 1], dayLabel, key) + (if dayLabel(t.day) == key then t.total else 0)
  }

  /** The series for a list of bucket keys, in key order. */
  function SeriesOf(keys: seq<string>, txs: seq<Transaction>, dayLabel: int -> string): (r: seq<DaySales>)
    ensures |r| == |keys|
    ensures forall i :: 0 <= i < |r| ==> r[i] == DaySales(keys[i], LabelSales(txs, dayLabel, keys[i]))
  {
    if keys == [] then []
    else
      var k := keys[|keys| - 1];
      SeriesOf(keys[..|keys| - 1], txs, dayLabel) + [DaySales(k, LabelSales(txs, dayLabel, k))]
  }

  /**
   * The series as the dashboard defines it: one bucket per window label, in
   * the order the labels were first set (a `Map` keeps insertion order and a
   * repeated `set` does not move a key), each holding its sales.
   */
  function DailySalesSpec(txs: seq<Transaction>, today: int, dayLabel: int -> string): (r: seq<DaySales>)
    ensures 1 <= |r| <= 7
    ensures forall i :: 0 <= i < |r| ==>
      r[i].date in WindowLabels(today, dayLabel) && r[i].total == LabelSales(txs, dayLabel, r[i].date)
    ensures forall i, j :: 0 <= i < j < |r| ==> r[i].date != r[j].date
  {
    var w := WindowLabels(today, dayLabel);
    assert w[0] in Distinct(w);
    SeriesOf(Distinct(WindowLabels(today, dayLabel)), txs, dayLabel)
  }

  /** What the map holds after seeding the labels `w`: keys in insertion order, each bucket 0. */
  ghost predicate SeededFrom(w: seq<string>, keys: seq<string>, salesMap: map<string, int>) {
    && keys == Distinct(w)
    && salesMap == map k | k in w :: 0
  }

  /** Setting a key in a map whose keys are the elements of `s` gives the keys of `s + [x]`. */
  lemma DomainStep(s: seq<string>, x: string, m: map<string, int>, v: int)
    requires forall k :: k in m <==> k in s
    ensures forall k :: k in m[x := v] <==> k in s + [x]
  {
    forall k
      ensures k in m[x := v] <==> k in s + [x]
    {
      assert k in s + [x] <==> k in s || k == x;
    }
  }

  /** One step of the seeding: set the bucket of `dateStr` to 0. */
  lemma SeedStep(w: seq<string>, dateStr: string, keys: seq<string>, salesMap: map<string, int>)
    requires SeededFrom(w, keys, salesMap)
    ensures SeededFrom(w + [dateStr], if dateStr in salesMap then keys else keys + [dateStr], salesMap[dateStr := 0])
  {
    assert dateStr in salesMap <==> dateStr in w;
    DistinctSnoc(w, dateStr);
    forall k
      ensures k in w + [dateStr] <==> k in w || k == dateStr
    {
    }
  }

  /** `last7Days.forEach(...)`: one bucket per label, set to 0, keys listed in insertion order. */
  method SeedBuckets(window: seq<string>) returns (keys: seq<string>, salesMap: map<string, int>)
    ensures keys == Distinct(window)
    ensures forall k :: k in salesMap <==> k in window
    ensures forall k :: k in salesMap ==> salesMap[k] == 0
  {
    keys := [];
    salesMap := map[];
    for i := 0 to |window|
      invariant SeededFrom(window[..i], keys, salesMap)
    {
      var dateStr := window[i];
      TakeOneMore(window, i);
      SeedStep(window[..i], dateStr, keys, salesMap);
      if dateStr !in salesMap {
        keys := keys + [dateStr];
      }
      salesMap := salesMap[dateStr := 0];
    }
    assert window[..|window|] == window;
  }

  /**
   * `transactions.forEach(...)`: each sale whose label has a bucket adds its
   * total there; a sale without a bucket changes nothing.
   */
  method AddSales(txs: seq<Transaction>, dayLabel: int -> string, buckets: map<string, int>)
    returns (salesMap: map<string, int>)
    ensures salesMap.Keys == buckets.Keys
    ensures forall k :: k in salesMap ==> salesMap[k] == buckets[k] + LabelSales(txs, dayLabel, k)
  {
    salesMap := buckets;
    for j := 0 to |txs|
      invariant salesMap.Keys == buckets.Keys
      invariant forall k :: k in salesMap ==> salesMap[k] == buckets[k] + LabelSales(txs[..j], dayLabel, k)
    {
      var t := txs[j];
      TakeOneMore(txs, j);
      forall k ensures LabelSales(txs[..j + 1], dayLabel, k)
                    == LabelSales(txs[..j], dayLabel, k) + (if dayLabel(t.day) == k then t.total else 0)
      {
        SaleLandsInLabelledBucket(txs[..j], t, dayLabel, k);
      }
      var dateStr := dayLabel(t.day);
      if dateStr in salesMap {
        salesMap := salesMap[dateStr := salesMap[dateStr] + t.total];
      }
    }
    assert txs[..|txs|] == txs;
  }

  /** `dailySales`: fill the buckets with 0, add each sale to its bucket if there is one, list the buckets. */
  method DailySales(txs: seq<Transaction>, today: int, dayLabel: int -> string) returns (r: seq<DaySales>)
    ensures r == DailySalesSpec(txs, today, dayLabel)
  {
    var window := WindowLabels(today, dayLabel);
    var keys, buckets := SeedBuckets(window);
    var salesMap := AddSales(txs, dayLabel, buckets);
    forall k | 0 <= k < |keys|
      ensures keys[k] in salesMap && salesMap[keys[k]] == LabelSales(txs, dayLabel, keys[k])
    {
      assert keys[k] in window;
      assert keys[k] in buckets.Keys;
    }
    r := [];
    for k := 0 to |keys|
      invariant r == SeriesOf(keys[..k], txs, dayLabel)
    {
      SeriesOfPrefix(keys, txs, dayLabel, k);
      r := r + [DaySales(keys[k], salesMap[keys[k]])];
    }
    assert keys[..|keys|] == keys;
  }

  /** One more key adds its point at the end of the series. */
  lemma SeriesOfPrefix(keys: seq<string>, txs: seq<Transaction>, dayLabel: int -> string, k: int)
    requires 0 <= k < |keys|
    ensures SeriesOf(keys[..k + 1], txs, dayLabel)
         == SeriesOf(keys[..k], txs, dayLabel) + [DaySales(keys[k], LabelSales(txs, dayLabel, keys[k]))]
  {
    assert keys[..k + 1][..k] == keys[..k];
  }

  /**
   * When the seven days of the window carry seven different labels the
   * series has exactly seven points, for today-6 .. today in that order.
   */
  lemma SevenPoints(txs: seq<Transaction>, today: int, dayLabel: int -> string)
    requires NoDuplicates(WindowLabels(today, dayLabel))
    ensures var r := DailySalesSpec(txs, today, dayLabel);
      && |r| == 7
      && forall i :: 0 <= i < 7 ==> r[i].date == dayLabel(today - 6 + i)
  {
    DistinctOfNoDuplicates(WindowLabels(today, dayLabel));
  }

  /** The revenue of the sales made on calendar day `day`. */
  function DayRevenue(txs: seq<Transaction>, day: int): int {
    Revenue(OnDay(txs, day))
  }

  /** With a dayLabel that tells days apart, a bucket holds exactly the revenue of its own day. */
  lemma {:induction false} BucketIsDayRevenue(txs: seq<Transaction>, dayLabel: int -> string, day: int)
    requires forall d :: dayLabel(d) == dayLabel(day) ==> d == day
    ensures LabelSales(txs, dayLabel, dayLabel(day)) == DayRevenue(txs, day)
  {
    if txs != [] {
      var init, t := txs[..|txs| - 1], txs[|txs| - 1];
      BucketIsDayRevenue(init, dayLabel, day);
      assert txs == init + [t];
      var p := (x: Transaction) => x.day == day;
      FilterConcat(init, [t], p);
      RevenueConcat(Filter(init, p), Filter([t], p));
      assert [t][..0] == [];
    }
  }

  /**
   * With a dayLabel that tells days apart, the series is the revenue of each of
   * the seven days, oldest first, and a day without sales shows 0.
   */
  lemma SeriesIsDailyRevenue(txs: seq<Transaction>, today: int, dayLabel: int -> string)
    requires forall d1, d2 :: dayLabel(d1) == dayLabel(d2) ==> d1 == d2
    ensures var r := DailySalesSpec(txs, today, dayLabel);
      && |r| == 7
      && (forall i :: 0 <= i < 7 ==> r[i].total == DayRevenue(txs, today - 6 + i))
      && (forall i :: 0 <= i < 7 && OnDay(txs, today - 6 + i) == [] ==> r[i].total == 0)
  {
    WindowLabelsDistinct(today, dayLabel);
    SevenPoints(txs, today, dayLabel);
    var r := DailySalesSpec(txs, today, dayLabel);
    forall i | 0 <= i < 7
      ensures r[i].total == DayRevenue(txs, today - 6 + i)
    {
      var d := today - 6 + i;
      assert r[i].total == LabelSales(txs, dayLabel, dayLabel(d));
      BucketIsDayRevenue(txs, dayLabel, d);
    }
  }

  /** A dayLabel that tells days apart gives the window seven different labels. */
  lemma WindowLabelsDistinct(today: int, dayLabel: int -> string)
    requires forall d1, d2 :: dayLabel(d1) == dayLabel(d2) ==> d1 == d2
    ensures NoDuplicates(WindowLabels(today, dayLabel))
  {
    var w := WindowLabels(today, dayLabel);
    forall i, j | 0 <= i < j < 7
      ensures w[i] != w[j]
    {
      assert w[i] == dayLabel(today - 6 + i) && w[j] == dayLabel(today - 6 + j);
    }
  }

  /**
   * A sale lands in whatever bucket carries its day's dayLabel, whatever its
   * year: appending it adds its total to that bucket and to no other.
   */
  lemma SaleLandsInLabelledBucket(txs: seq<Transaction>, t: Transaction, dayLabel: int -> string, key: string)
    ensures LabelSales(txs + [t], dayLabel, key)
         == LabelSales(txs, dayLabel, key) + (if dayLabel(t.day) == key then t.total else 0)
  {
    assert (txs + [t])[..|txs|] == txs;
  }

  function SeriesTotal(r: seq<DaySales>): int {
    if r == [] then 0 else SeriesTotal(r[..|r| - 1]) + r[|r| - 1].total
  }

  lemma {:induction false} SeriesTotalSnoc(keys: seq<string>, txs: seq<Transaction>, t: Transaction, dayLabel: int -> string)
    requires NoDuplicates(keys)
    ensures SeriesTotal(SeriesOf(keys, txs + [t], dayLabel))
         == SeriesTotal(SeriesOf(keys, txs, dayLabel)) + (if dayLabel(t.day) in keys then t.total else 0)
  {
    if keys != [] {
      var init, k := keys[..|keys| - 1], keys[|keys| - 1];
      assert keys == init + [k];
      SeriesTotalSnoc(init, txs, t, dayLabel);
      SaleLandsInLabelledBucket(txs, t, dayLabel, k);
      var a, b := SeriesOf(keys, txs + [t], dayLabel), SeriesOf(keys, txs, dayLabel);
      assert a[..|a| - 1] == SeriesOf(init, txs + [t], dayLabel);
      assert b[..|b| - 1] == SeriesOf(init, txs, dayLabel);
    }
  }

  lemma {:induction false} SeriesTotalBounded(keys: seq<string>, txs: seq<Transaction>, dayLabel: int -> string)
    requires NoDuplicates(keys) && NonNegativeTotals(txs)
    ensures 0 <= SeriesTotal(SeriesOf(keys, txs, dayLabel)) <= Revenue(txs)
  {
    if txs == [] {
      SeriesTotalOfEmpty(keys, dayLabel);
    } else {
      var init, t := txs[..|txs| - 1], txs[|txs| - 1];
      assert txs == init + [t];
      SeriesTotalBounded(keys, init, dayLabel);
      SeriesTotalSnoc(keys, init, t, dayLabel);
    }
  }

  lemma {:induction false} SeriesTotalOfEmpty(keys: seq<string>, dayLabel: int -> string)
    ensures SeriesTotal(SeriesOf(keys, [], dayLabel)) == 0
  {
    if keys != [] {
      SeriesTotalOfEmpty(keys[..|keys| - 1], dayLabel);
      var a := SeriesOf(keys, [], dayLabel);
      assert a[..|a| - 1] == SeriesOf(keys[..|keys| - 1], [], dayLabel);
    }
  }

  /**
   * Each sale is added to at most one bucket and sales outside the window
   * to none, so the series never adds up to more than the revenue.
   */
  lemma SeriesBoundedByRevenue(txs: seq<Transaction>, today: int, dayLabel: int -> string)
    requires NonNegativeTotals(txs)
    ensures 0 <= SeriesTotal(DailySalesSpec(txs, today, dayLabel)) <= Revenue(txs)
  {
    SeriesTotalBounded(Distinct(WindowLabels(today, dayLabel)), txs, dayLabel);
  }

  // ---------------------------------------------------------------------
  // Payment mix (dashboard.tsx:144-165)
  // ---------------------------------------------------------------------

  /** One slice of the payment chart; `paymentMethod` is the map key it was counted under. */
  datatype MethodShare = MethodShare(paymentMethod: string, name: string, value: int)

  /** `methodNames[method] || method`. */
  function MethodLabel(paymentMethod: string): (name: string)
    ensures paymentMethod !in {"cash", "debit", "ewallet"} ==> name == paymentMethod
  {
    if paymentMethod == "cash" then "Tunai"
    else if paymentMethod == "debit" then "Kartu Debit"
    else if paymentMethod == "ewallet" then "E-Wallet"
    else paymentMethod
  }

  /** The payment method of each transaction, in ledger order. */
  function Methods(txs: seq<Transaction>): (ms: seq<string>)
    ensures |ms| == |txs| && forall i :: 0 <= i < |txs| ==> ms[i] == txs[i].paymentMethod
  {
    if txs == [] then [] else Methods(txs[..|txs| - 1]) + [txs[|txs| - 1].paymentMethod]
  }

  /** The slices for a list of methods, in list order. */
  function MixOf(keys: seq<string>, txs: seq<Transaction>): (r: seq<MethodShare>)
    ensures |r| == |keys|
    ensures forall i :: 0 <= i < |r| ==>
      r[i] == MethodShare(keys[i], MethodLabel(keys[i]), Count(Methods(txs), keys[i]))
  {
    if keys == [] then []
    else
      var m := keys[|keys| - 1];
      MixOf(keys[..|keys| - 1], txs) + [MethodShare(m, MethodLabel(m), Count(Methods(txs), m))]
  }

  /** One more key adds its slice at the end of the mix. */
  lemma MixOfPrefix(keys: seq<string>, txs: seq<Transaction>, k: int)
    requires 0 <= k < |keys|
    ensures MixOf(keys[..k + 1], txs)
         == MixOf(keys[..k], txs) + [MethodShare(keys[k], MethodLabel(keys[k]), Count(Methods(txs), keys[k]))]
  {
    assert keys[..k + 1][..k] == keys[..k];
  }

  /** The payment mix: one slice per method, in the order the methods are first met walking the ledger (newest sale first), counting its transactions. */
  function PaymentMixSpec(txs: seq<Transaction>): (r: seq<MethodShare>)
    ensures |r| <= |txs|
    ensures forall i :: 0 <= i < |r| ==> r[i].value >= 1
  {
    MixOf(Distinct(Methods(txs)), txs)
  }

  /** What the tally holds after reading the methods `s`: keys in the order the methods are first met in `s`, and the count of each. */
  ghost predicate TallyOf(s: seq<string>, keys: seq<string>, methodCounts: map<string, int>) {
    && keys == Distinct(s)
    && (forall m :: m in methodCounts <==> m in s)
    && (forall m :: m in methodCounts ==> methodCounts[m] == Count(s, m))
  }

  /** One step of the tally: record one more use of `m`. */
  lemma TallyStep(s: seq<string>, m: string, keys: seq<string>, methodCounts: map<string, int>)
    requires TallyOf(s, keys, methodCounts)
    ensures TallyOf(s + [m],
                    if m in methodCounts then keys else keys + [m],
                    methodCounts[m := (if m in methodCounts then methodCounts[m] else 0) + 1])
  {
    assert m in methodCounts <==> m in s;
    DistinctSnoc(s, m);
    DomainStep(s, m, methodCounts, (if m in methodCounts then methodCounts[m] else 0) + 1);
    TallyCountStep(s, m, methodCounts);
  }

  lemma TallyCountStep(s: seq<string>, m: string, methodCounts: map<string, int>)
    requires forall x :: x in methodCounts <==> x in s
    requires forall x :: x in methodCounts ==> methodCounts[x] == Count(s, x)
    ensures var mc := methodCounts[m := (if m in methodCounts then methodCounts[m] else 0) + 1];
      forall x :: x in mc ==> mc[x] == Count(s + [m], x)
  {
    var mc := methodCounts[m := (if m in methodCounts then methodCounts[m] else 0) + 1];
    forall x | x in mc
      ensures mc[x] == Count(s + [m], x)
    {
      CountSnoc(s, m, x);
    }
  }

  /**
   * `transactions.forEach(...)` over the methods of the ledger: the methods
   * in the order the methods are first met walking the ledger, newest sale
   * first (the map's key order), and the count of each.
   */
  method Tally(ms: seq<string>) returns (keys: seq<string>, methodCounts: map<string, int>)
    ensures keys == Distinct(ms)
    ensures forall m :: m in methodCounts <==> m in ms
    ensures forall m :: m in methodCounts ==> methodCounts[m] == Count(ms, m)
  {
    keys := [];
    methodCounts := map[];
    for j := 0 to |ms|
      invariant TallyOf(ms[..j], keys, methodCounts)
    {
      var m := ms[j];
      TakeOneMore(ms, j);
      TallyStep(ms[..j], m, keys, methodCounts);
      if m !in methodCounts {
        keys := keys + [m];
      }
      methodCounts := methodCounts[m := (if m in methodCounts then methodCounts[m] else 0) + 1];
    }
    assert ms[..|ms|] == ms;
  }

  /** `paymentMethodStats`: count by method in a map, then list the entries with their labels. */
  method PaymentMethodStats(txs: seq<Transaction>) returns (r: seq<MethodShare>)
    ensures r == PaymentMixSpec(txs)
  {
    var keys, methodCounts := Tally(Methods(txs));
    assert forall k :: 0 <= k < |keys| ==> keys[k] in methodCounts;
    r := [];
    for k := 0 to |keys|
      invariant r == MixOf(keys[..k], txs)
    {
      MixOfPrefix(keys, txs, k);
      var m := keys[k];
      r := r + [MethodShare(m, MethodLabel(m), methodCounts[m])];
    }
    assert keys[..|keys|] == keys;
  }

  function ShareTotal(r: seq<MethodShare>): int {
    if r == [] then 0 else ShareTotal(r[..|r| - 1]) + r[|r| - 1].value
  }

  lemma {:induction false} ShareTotalIsCountAll(keys: seq<string>, txs: seq<Transaction>)
    ensures ShareTotal(MixOf(keys, txs)) == CountAll(keys, Methods(txs))
  {
    if keys != [] {
      ShareTotalIsCountAll(keys[..|keys| - 1], txs);
      var r := MixOf(keys, txs);
      assert r[..|r| - 1] == MixOf(keys[..|keys| - 1], txs);
    }
  }

  /** The slice counts add up to the number of transactions: a tally that loses and invents nothing. */
  lemma PaymentCountsSumToLedger(txs: seq<Transaction>)
    ensures ShareTotal(PaymentMixSpec(txs)) == |txs|
  {
    ShareTotalIsCountAll(Distinct(Methods(txs)), txs);
    DistinctCountsSumToLength(Methods(txs));
  }

  /** Every method used in the ledger has a slice, and every slice counts at least one transaction. */
  lemma PaymentMixCovers(txs: seq<Transaction>)
    ensures var r := PaymentMixSpec(txs);
      && (forall i :: 0 <= i < |txs| ==> exists k :: 0 <= k < |r| && r[k].paymentMethod == txs[i].paymentMethod)
      && (forall k :: 0 <= k < |r| ==> r[k].value >= 1 && r[k].name == MethodLabel(r[k].paymentMethod))
  {
    var ms := Methods(txs);
    var keys := Distinct(ms);
    var r := PaymentMixSpec(txs);
    forall i | 0 <= i < |txs|
      ensures exists k :: 0 <= k < |r| && r[k].paymentMethod == txs[i].paymentMethod
    {
      assert ms[i] in keys;
      var k :| 0 <= k < |keys| && keys[k] == ms[i];
      assert r[k].paymentMethod == txs[i].paymentMethod;
    }
  }

  /** No method has two slices, and the slices come in the order each method is first met walking the ledger, newest sale first. */
  lemma PaymentMixOrder(txs: seq<Transaction>)
    ensures var r := PaymentMixSpec(txs);
      && (forall k, l :: 0 <= k < l < |r| ==> r[k].paymentMethod != r[l].paymentMethod)
      && (forall k, l :: 0 <= k < l < |r| ==>
            FirstIndex(Methods(txs), r[k].paymentMethod) < FirstIndex(Methods(txs), r[l].paymentMethod))
  {
    var keys := Distinct(Methods(txs));
    var r := PaymentMixSpec(txs);
    assert forall k :: 0 <= k < |r| ==> r[k].paymentMethod == keys[k];
    DistinctFirstSeenOrder(Methods(txs));
  }
}
