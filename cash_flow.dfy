/**
 * The cash-flow page: entries grouped into one summary per day, newest day
 * first; the period totals; and the five largest categories of one kind.
 */
module CashFlow {
  import opened Strings
  import opened Sorting

  /** A cash-flow entry; `kind` is the `type` column, "income" or "expense". */
  datatype Entry = Entry(
    id: string,
    kind: string,
    category: string,
    description: string,
    amount: real,
    transactionDate: string)

  /** The running income and expense of one day while the entries are read. */
  datatype Sums = Sums(income: real, expense: real)

  datatype DailySummary = DailySummary(date: string, income: real, expense: real, balance: real)

  datatype Totals = Totals(income: real, expense: real, balance: real)

  // ---------------------------------------------------------------------------
  // Grouping entries by a key
  // ---------------------------------------------------------------------------

  /** What entries are grouped by: the day, or the category. */
  datatype Key = ByDate | ByCategory

  function KeyOf(key: Key, e: Entry): string
  {
    match key
    case ByDate => e.transactionDate
    case ByCategory => e.category
  }

  /**
   * What an entry adds to its group: to a day's income only when it is of
   * kind "income"; to a day's expense whenever it is of any other kind; to a
   * category, its amount.
   */
  datatype Weight = IncomeW | ExpenseW | AmountW

  function WeightOf(w: Weight, e: Entry): real
  {
    match w
    case IncomeW => if e.kind == "income" then e.amount else 0.0
    case ExpenseW => if e.kind == "income" then 0.0 else e.amount
    case AmountW => e.amount
  }

  /** The sum of `w` over the entries whose key is `k`, read left to right. */
  function GroupSum(s: seq<Entry>, key: Key, k: string, w: Weight): real
  {
    if s == [] then 0.0
    else
      var e := s[|s| - 1];
      GroupSum(s[..|s| - 1], key, k, w) + (if KeyOf(key, e) == k then WeightOf(w, e) else 0.0)
  }

  /** The keys in the order a `Map` first meets them: each once, at its first entry. */
  function KeyOrder(s: seq<Entry>, key: Key): seq<string>
  {
    if s == [] then []
    else
      var o := KeyOrder(s[..|s| - 1], key);
      var k := KeyOf(key, s[|s| - 1]);
      if k in o then o else o + [k]
  }

  /** The keys met are exactly the keys of the entries, none twice. */
  lemma {:induction false} KeyOrderMembers(s: seq<Entry>, key: Key)
    ensures Distinct(KeyOrder(s, key))
    ensures forall i :: 0 <= i < |s| ==> KeyOf(key, s[i]) in KeyOrder(s, key)
    ensures forall k :: k in KeyOrder(s, key) ==> exists i :: 0 <= i < |s| && KeyOf(key, s[i]) == k
    decreases |s|
  {
    if s != [] {
      var init := s[..|s| - 1];
      KeyOrderMembers(init, key);
      assert forall i :: 0 <= i < |init| ==> init[i] == s[i];
      var o := KeyOrder(init, key);
      var k := KeyOf(key, s[|s| - 1]);
      if k !in o {
        assert Distinct(o + [k]) by {
          forall i, j | 0 <= i < j < |o + [k]| ensures (o + [k])[i] != (o + [k])[j] {
            if j < |o| {
              assert (o + [k])[i] == o[i] && (o + [k])[j] == o[j];
            } else {
              assert (o + [k])[i] == o[i];
            }
          }
        }
      }
    }
  }

  /** The sum of `w` over all entries. */
  function WeightTotal(s: seq<Entry>, w: Weight): real
  {
    if s == [] then 0.0 else WeightTotal(s[..|s| - 1], w) + WeightOf(w, s[|s| - 1])
  }

  /** The group sums of the keys `ks`, added up. */
  function SumGroups(ks: seq<string>, s: seq<Entry>, key: Key, w: Weight): real
  {
    if ks == [] then 0.0 else GroupSum(s, key, ks[0], w) + SumGroups(ks[1..], s, key, w)
  }

  /** A key no entry has sums to zero. */
  lemma {:induction false} GroupSumAbsent(s: seq<Entry>, key: Key, k: string, w: Weight)
    requires forall i :: 0 <= i < |s| ==> KeyOf(key, s[i]) != k
    ensures GroupSum(s, key, k, w) == 0.0
    decreases |s|
  {
    if s != [] {
      var init := s[..|s| - 1];
      assert forall i :: 0 <= i < |init| ==> init[i] == s[i];
      GroupSumAbsent(init, key, k, w);
    }
  }

  lemma GroupSumSnoc(s: seq<Entry>, e: Entry, key: Key, k: string, w: Weight)
    ensures GroupSum(s + [e], key, k, w) == GroupSum(s, key, k, w) + (if KeyOf(key, e) == k then WeightOf(w, e) else 0.0)
  {
    assert (s + [e])[..|s|] == s;
  }

  lemma KeyOrderSnoc(s: seq<Entry>, e: Entry, key: Key)
    ensures KeyOrder(s + [e], key)
      == if KeyOf(key, e) in KeyOrder(s, key) then KeyOrder(s, key) else KeyOrder(s, key) + [KeyOf(key, e)]
  {
    assert (s + [e])[..|s|] == s;
  }

  /** The `Map` from each key met to its running sum. */
  function GroupMap(s: seq<Entry>, key: Key, w: Weight): map<string, real>
  {
    map k | k in KeyOrder(s, key) :: GroupSum(s, key, k, w)
  }

  /** One more entry adds its weight to its key's sum, starting from zero for a new key. */
  lemma GroupMapSnoc(s: seq<Entry>, e: Entry, key: Key, w: Weight)
    ensures var m := GroupMap(s, key, w);
      GroupMap(s + [e], key, w)
      == m[KeyOf(key, e) := (if KeyOf(key, e) in m then m[KeyOf(key, e)] else 0.0) + WeightOf(w, e)]
  {
    var m := GroupMap(s, key, w);
    var k0 := KeyOf(key, e);
    var before := if k0 in m then m[k0] else 0.0;
    var m' := m[k0 := before + WeightOf(w, e)];
    var n := GroupMap(s + [e], key, w);
    KeyOrderSnoc(s, e, key);
    assert before == GroupSum(s, key, k0, w) by {
      if k0 !in m {
        KeyOrderMembers(s, key);
        GroupSumAbsent(s, key, k0, w);
      }
    }
    forall k | k in n ensures k in m' && n[k] == m'[k] {
      GroupSumSnoc(s, e, key, k, w);
    }
    assert n.Keys == m'.Keys;
  }

  /** One more entry changes the sum of exactly one group, its own. */
  lemma {:induction false} SumGroupsSnoc(ks: seq<string>, s: seq<Entry>, e: Entry, key: Key, w: Weight)
    requires Distinct(ks)
    ensures SumGroups(ks, s + [e], key, w) == SumGroups(ks, s, key, w) + (if KeyOf(key, e) in ks then WeightOf(w, e) else 0.0)
    decreases |ks|
  {
    if ks != [] {
      assert (s + [e])[..|s|] == s;
      assert Distinct(ks[1..]) by {
        forall i, j | 0 <= i < j < |ks[1..]| ensures ks[1..][i] != ks[1..][j] {
          assert ks[1..][i] == ks[i + 1] && ks[1..][j] == ks[j + 1];
        }
      }
      assert ks == [ks[0]] + ks[1..];
      forall i | 0 <= i < |ks[1..]| ensures ks[1..][i] != ks[0] {
        assert ks[1..][i] == ks[i + 1];
      }
      SumGroupsSnoc(ks[1..], s, e, key, w);
    }
  }

  lemma {:induction false} SumGroupsAppend(ks: seq<string>, k: string, s: seq<Entry>, key: Key, w: Weight)
    ensures SumGroups(ks + [k], s, key, w) == SumGroups(ks, s, key, w) + GroupSum(s, key, k, w)
    decreases |ks|
  {
    if ks == [] {
      assert ks + [k] == [k];
    } else {
      assert (ks + [k])[1..] == ks[1..] + [k];
      SumGroupsAppend(ks[1..], k, s, key, w);
    }
  }

  /** Grouping loses nothing: the groups in `Map` order add up to the whole. */
  lemma {:induction false} GroupsAddUp(s: seq<Entry>, key: Key, w: Weight)
    ensures SumGroups(KeyOrder(s, key), s, key, w) == WeightTotal(s, w)
    decreases |s|
  {
    if s != [] {
      var init := s[..|s| - 1];
      var e := s[|s| - 1];
      var o := KeyOrder(init, key);
      assert s == init + [e];
      GroupsAddUp(init, key, w);
      KeyOrderMembers(init, key);
      SumGroupsSnoc(o, init, e, key, w);
      if KeyOf(key, e) !in o {
        SumGroupsAppend(o, KeyOf(key, e), s, key, w);
        GroupSumAbsent(init, key, KeyOf(key, e), w);
      }
    }
  }

  // ---------------------------------------------------------------------------
  // Daily summaries
  // ---------------------------------------------------------------------------

  /** The income entered on day `d`. */
  function IncomeOn(data: seq<Entry>, d: string): real
  {
    GroupSum(data, ByDate, d, IncomeW)
  }

  /** What day `d`'s summary counts as expense. */
  function ExpenseOn(data: seq<Entry>, d: string): real
  {
    GroupSum(data, ByDate, d, ExpenseW)
  }

  /** The summary of day `d`. */
  function Summary(d: string, data: seq<Entry>): DailySummary
  {
    DailySummary(d, IncomeOn(data, d), ExpenseOn(data, d), IncomeOn(data, d) - ExpenseOn(data, d))
  }

  /** One summary per day of `order`, in that order. */
  function Rows(order: seq<string>, data: seq<Entry>): (r: seq<DailySummary>)
    ensures |r| == |order|
    ensures forall k :: 0 <= k < |r| ==> r[k] == Summary(order[k], data)
  {
    seq(|order|, k requires 0 <= k < |order| => Summary(order[k], data))
  }

  /** `b.date.localeCompare(a.date)` at most zero: the newer day may come first. */
  function NewestFirst(a: DailySummary, b: DailySummary): bool
  {
    !StrLt(a.date, b.date)
  }

  lemma NewestFirstIsPreorder()
    ensures TotalPreorder(NewestFirst)
  {
    forall a: DailySummary, b: DailySummary ensures NewestFirst(a, b) || NewestFirst(b, a) {
      StrLtAsymmetric(a.date, b.date);
    }
    forall a: DailySummary, b: DailySummary, c: DailySummary | NewestFirst(a, b) && NewestFirst(b, c)
      ensures NewestFirst(a, c)
    {
      StrLtTrichotomy(a.date, b.date);
      StrLtTrichotomy(b.date, c.date);
      StrLtAsymmetric(a.date, c.date);
      StrLtIrreflexive(a.date);
      if StrLt(b.date, a.date) && StrLt(c.date, b.date) {
        StrLtTransitive(c.date, b.date, a.date);
      }
    }
  }

  /** What `calculateDailySummaries` leaves in `dailySummaries`. */
  function DailySummaries(data: seq<Entry>): (r: seq<DailySummary>)
    ensures |r| == |KeyOrder(data, ByDate)|
    ensures Sorted(r, NewestFirst)
  {
    NewestFirstIsPreorder();
    SortBy(Rows(KeyOrder(data, ByDate), data), NewestFirst)
  }

  /** `summaryMap` after reading `s`: each day met, with its income and expense so far. */
  function SumsMap(s: seq<Entry>): map<string, Sums>
  {
    map d | d in KeyOrder(s, ByDate) :: Sums(IncomeOn(s, d), ExpenseOn(s, d))
  }

  /** An entry's amount added to its day's income when it is income, else to its expense. */
  function Record(sm: Sums, e: Entry): Sums
  {
    if e.kind == "income" then sm.(income := sm.income + e.amount)
    else sm.(expense := sm.expense + e.amount)
  }

  /** One more entry changes only its own day's sums. */
  lemma SumsSnoc(s: seq<Entry>, e: Entry, d: string)
    ensures Sums(IncomeOn(s + [e], d), ExpenseOn(s + [e], d))
      == if d == e.transactionDate then Record(Sums(IncomeOn(s, d), ExpenseOn(s, d)), e)
         else Sums(IncomeOn(s, d), ExpenseOn(s, d))
  {
    GroupSumSnoc(s, e, ByDate, d, IncomeW);
    GroupSumSnoc(s, e, ByDate, d, ExpenseW);
  }

  /** Reading one more entry adds its amount to its day's income or expense, from zero for a new day. */
  lemma SumsMapSnoc(s: seq<Entry>, e: Entry)
    ensures var m := SumsMap(s);
      var d := e.transactionDate;
      SumsMap(s + [e]) == m[d := Record(if d in m then m[d] else Sums(0.0, 0.0), e)]
  {
    var m := SumsMap(s);
    var d := e.transactionDate;
    var sm := if d in m then m[d] else Sums(0.0, 0.0);
    var m' := m[d := Record(sm, e)];
    var n := SumsMap(s + [e]);
    KeyOrderSnoc(s, e, ByDate);
    assert sm == Sums(IncomeOn(s, d), ExpenseOn(s, d)) by {
      if d !in m {
        KeyOrderMembers(s, ByDate);
        GroupSumAbsent(s, ByDate, d, IncomeW);
        GroupSumAbsent(s, ByDate, d, ExpenseW);
      }
    }
    forall k | k in n ensures k in m' && n[k] == m'[k] {
      SumsSnoc(s, e, k);
    }
    assert n.Keys == m'.Keys;
  }

  /**
   * The `forEach` callback of `calculateDailySummaries`: a new day starts at zero
   * (and takes the next place in the `Map`'s insertion order), then the entry's
   * amount is added to that day's income or expense.
   */
  method RecordEntry(summaryMap: map<string, Sums>, order: seq<string>, entry: Entry)
    returns (summaryMap': map<string, Sums>, order': seq<string>)
    ensures var d := entry.transactionDate;
      summaryMap' == summaryMap[d := Record(if d in summaryMap then summaryMap[d] else Sums(0.0, 0.0), entry)]
    ensures order' == if entry.transactionDate in summaryMap then order else order + [entry.transactionDate]
  {
    var date := entry.transactionDate;
    summaryMap', order' := summaryMap, order;
    if date !in summaryMap' {
      summaryMap' := summaryMap'[date := Sums(0.0, 0.0)];
      order' := order' + [date];
    }
    var summary := summaryMap'[date];
    if entry.kind == "income" {
      summaryMap' := summaryMap'[date := summary.(income := summary.income + entry.amount)];
    } else {
      summaryMap' := summaryMap'[date := summary.(expense := summary.expense + entry.amount)];
    }
  }

  /** Reads the entries once into a map of running sums, then lists and sorts the days. */
  method CalculateDailySummaries(data: seq<Entry>) returns (summaries: seq<DailySummary>)
    ensures summaries == DailySummaries(data)
  {
    var summaryMap: map<string, Sums> := map[];
    var order: seq<string> := [];
    for i := 0 to |data|
      invariant order == KeyOrder(data[..i], ByDate)
      invariant summaryMap == SumsMap(data[..i])
    {
      ghost var seen := data[..i];
      assert data[..i + 1] == seen + [data[i]];
      SumsMapSnoc(seen, data[i]);
      KeyOrderSnoc(seen, data[i], ByDate);
      assert data[i].transactionDate in summaryMap <==> data[i].transactionDate in order;
      summaryMap, order := RecordEntry(summaryMap, order, data[i]);
    }
    assert data[..|data|] == data;
    ListedSumsMap(data);
    NewestFirstIsPreorder();
    summaries := SortBy(Listed(order, summaryMap), NewestFirst);
  }

  /** `Array.from(summaryMap.entries()).map(...)`: one summary per day, in `Map` order. */
  function Listed(order: seq<string>, m: map<string, Sums>): seq<DailySummary>
    requires forall d :: d in order ==> d in m
  {
    seq(|order|, k requires 0 <= k < |order| =>
      DailySummary(order[k], m[order[k]].income, m[order[k]].expense, m[order[k]].income - m[order[k]].expense))
  }

  lemma ListedSumsMap(data: seq<Entry>)
    ensures forall d :: d in KeyOrder(data, ByDate) ==> d in SumsMap(data)
    ensures Listed(KeyOrder(data, ByDate), SumsMap(data)) == Rows(KeyOrder(data, ByDate), data)
  {
    var order := KeyOrder(data, ByDate);
    var m := SumsMap(data);
    var l := Listed(order, m);
    var r := Rows(order, data);
    assert |l| == |r|;
    forall k | 0 <= k < |order| ensures l[k] == r[k] {
      var d := order[k];
      assert m[d] == Sums(IncomeOn(data, d), ExpenseOn(data, d));
    }
  }

  /** Some entry is dated `d`. */
  predicate HasEntryOn(data: seq<Entry>, d: string)
  {
    exists j :: 0 <= j < |data| && data[j].transactionDate == d
  }

  function Days(r: seq<DailySummary>): set<string>
  {
    set i | 0 <= i < |r| :: r[i].date
  }

  /** Each row is the summary of its own day. */
  predicate RowsAreSummaries(r: seq<DailySummary>, data: seq<Entry>)
  {
    forall i :: 0 <= i < |r| ==> r[i] == Summary(r[i].date, data)
  }

  /** Strictly from the newest day to the oldest, so no day twice. */
  predicate NewestToOldest(r: seq<DailySummary>)
  {
    forall i, j :: 0 <= i < j < |r| ==> StrLt(r[j].date, r[i].date)
  }

  /** The sorted rows are the rows of the days met, each the summary of its day, none twice. */
  lemma SortedRows(data: seq<Entry>)
    ensures RowsAreSummaries(DailySummaries(data), data)
    ensures Distinct(DailySummaries(data))
    ensures forall i :: 0 <= i < |DailySummaries(data)| ==> DailySummaries(data)[i].date in KeyOrder(data, ByDate)
    ensures forall k :: 0 <= k < |KeyOrder(data, ByDate)| ==> Rows(KeyOrder(data, ByDate), data)[k] in DailySummaries(data)
  {
    NewestFirstIsPreorder();
    KeyOrderMembers(data, ByDate);
    var order := KeyOrder(data, ByDate);
    var rows := Rows(order, data);
    var r := DailySummaries(data);
    assert Distinct(rows) by {
      forall i, j | 0 <= i < j < |rows| ensures rows[i] != rows[j] {
        assert rows[i].date == order[i] && rows[j].date == order[j];
      }
    }
    PermutationDistinct(rows, r);
    forall i | 0 <= i < |r| ensures r[i] == Summary(r[i].date, data) && r[i].date in order {
      PermutationMembers(rows, r, i);
    }
    forall k | 0 <= k < |order| ensures rows[k] in r {
      assert rows[k] in multiset(r);
    }
  }

  /**
   * One summary per day that has entries, and no other: each carries that
   * day's income and expense and their difference, and the days run from the
   * newest to the oldest with none repeated.
   */
  lemma DailySummariesMeaning(data: seq<Entry>)
    ensures RowsAreSummaries(DailySummaries(data), data)
    ensures forall d :: d in Days(DailySummaries(data)) <==> HasEntryOn(data, d)
    ensures NewestToOldest(DailySummaries(data))
  {
    SortedRows(data);
    KeyOrderMembers(data, ByDate);
    NewestFirstIsPreorder();
    var order := KeyOrder(data, ByDate);
    var r := DailySummaries(data);
    forall d ensures d in Days(r) <==> HasEntryOn(data, d) {
      if d in Days(r) {
        var i :| 0 <= i < |r| && r[i].date == d;
        assert d in order;
      }
      if HasEntryOn(data, d) {
        var j :| 0 <= j < |data| && data[j].transactionDate == d;
        assert KeyOf(ByDate, data[j]) in order;
        var k :| 0 <= k < |order| && order[k] == d;
        assert Rows(order, data)[k] in r;
        var i :| 0 <= i < |r| && r[i] == Rows(order, data)[k];
        assert r[i].date == d;
      }
    }
    forall i, j | 0 <= i < j < |r| ensures StrLt(r[j].date, r[i].date) {
      assert NewestFirst(r[i], r[j]);
      assert r[i] != r[j];
      StrLtTrichotomy(r[i].date, r[j].date);
    }
  }

  // ---------------------------------------------------------------------------
  // Totals
  // ---------------------------------------------------------------------------

  /** The entries of one kind, in order (`entries.filter(e => e.type === t)`). */
  function OfKind(s: seq<Entry>, t: string): (r: seq<Entry>)
    ensures forall i :: 0 <= i < |r| ==> r[i].kind == t && r[i] in s
    ensures forall e :: e in s && e.kind == t ==> e in r
    ensures (forall i :: 0 <= i < |s| ==> s[i].kind == t) ==> r == s
    ensures |r| <= |s|
  {
    if s == [] then []
    else
      var e := s[|s| - 1];
      var kept := OfKind(s[..|s| - 1], t);
      OfKindStep(s, t, kept);
      kept + (if e.kind == t then [e] else [])
  }

  /** The filter's last step: the entries kept from all but the last, then the last one if it has the kind. */
  lemma OfKindStep(s: seq<Entry>, t: string, kept: seq<Entry>)
    requires s != []
    requires forall i :: 0 <= i < |kept| ==> kept[i].kind == t && kept[i] in s[..|s| - 1]
    requires forall e :: e in s[..|s| - 1] && e.kind == t ==> e in kept
    requires (forall i :: 0 <= i < |s| - 1 ==> s[i].kind == t) ==> kept == s[..|s| - 1]
    requires |kept| <= |s| - 1
    ensures var r := kept + (if s[|s| - 1].kind == t then [s[|s| - 1]] else []);
      (forall i :: 0 <= i < |r| ==> r[i].kind == t && r[i] in s)
      && (forall e :: e in s && e.kind == t ==> e in r)
      && ((forall i :: 0 <= i < |s| ==> s[i].kind == t) ==> r == s)
      && |r| <= |s|
  {
    var init, last := s[..|s| - 1], s[|s| - 1];
    assert s == init + [last];
    forall e | e in s ensures e in init || e == last {
    }
  }

  /** Filtering works piece by piece: the entries kept keep their order. */
  lemma {:induction false} OfKindConcat(a: seq<Entry>, b: seq<Entry>, t: string)
    ensures OfKind(a + b, t) == OfKind(a, t) + OfKind(b, t)
    decreases |b|
  {
    if b == [] {
      assert a + b == a;
    } else {
      var init := b[..|b| - 1];
      var e := b[|b| - 1];
      assert (a + b)[..|a + b| - 1] == a + init;
      assert (a + b)[|a + b| - 1] == e;
      OfKindConcat(a, init, t);
    }
  }

  /** `reduce((sum, e) => sum + e.amount, 0)`. */
  function SumAmounts(s: seq<Entry>): real
  {
    if s == [] then 0.0 else SumAmounts(s[..|s| - 1]) + s[|s| - 1].amount
  }

  lemma {:induction false} SumAmountsSnoc(s: seq<Entry>, e: Entry)
    ensures SumAmounts(s + [e]) == SumAmounts(s) + e.amount
  {
    assert (s + [e])[..|s|] == s;
  }

  /** The totals of the period: income and expense each counted by its own kind. */
  function CashTotals(entries: seq<Entry>): (r: Totals)
    ensures r.balance == r.income - r.expense
  {
    var income := SumAmounts(OfKind(entries, "income"));
    var expense := SumAmounts(OfKind(entries, "expense"));
    Totals(income, expense, income - expense)
  }

  /** Every entry is either income or expense, as the column's type says. */
  predicate WellTyped(s: seq<Entry>)
  {
    forall i :: 0 <= i < |s| ==> s[i].kind == "income" || s[i].kind == "expense"
  }

  /** Dropping the entries of other kinds: the weight of kind `t` is the sum of the amounts of kind `t`. */
  lemma {:induction false} KindWeights(s: seq<Entry>, w: Weight, t: string)
    requires forall i :: 0 <= i < |s| ==> WeightOf(w, s[i]) == if s[i].kind == t then s[i].amount else 0.0
    ensures WeightTotal(s, w) == SumAmounts(OfKind(s, t))
    decreases |s|
  {
    if s != [] {
      var init := s[..|s| - 1];
      var e := s[|s| - 1];
      assert forall i :: 0 <= i < |init| ==> init[i] == s[i];
      KindWeights(init, w, t);
      assert WeightTotal(s, w) == WeightTotal(init, w) + WeightOf(w, e);
      if e.kind == t {
        assert OfKind(s, t) == OfKind(init, t) + [e];
        SumAmountsSnoc(OfKind(init, t), e);
        assert WeightOf(w, s[|s| - 1]) == e.amount;
      } else {
        assert OfKind(s, t) == OfKind(init, t) + [] == OfKind(init, t);
        assert WeightOf(w, s[|s| - 1]) == 0.0;
      }
    }
  }

  lemma {:induction false} RowsIncome(order: seq<string>, data: seq<Entry>)
    ensures SumBy(Rows(order, data), (x: DailySummary) => x.income) == SumGroups(order, data, ByDate, IncomeW)
    decreases |order|
  {
    if order != [] {
      assert Rows(order, data)[1..] == Rows(order[1..], data);
      RowsIncome(order[1..], data);
    }
  }

  lemma {:induction false} RowsExpense(order: seq<string>, data: seq<Entry>)
    ensures SumBy(Rows(order, data), (x: DailySummary) => x.expense) == SumGroups(order, data, ByDate, ExpenseW)
    decreases |order|
  {
    if order != [] {
      assert Rows(order, data)[1..] == Rows(order[1..], data);
      RowsExpense(order[1..], data);
    }
  }

  /**
   * The daily summaries add up to the period's income; when every entry is
   * income or expense, they add up to its expense and balance too.
   */
  lemma DailyAgreesWithTotals(data: seq<Entry>)
    ensures SumBy(DailySummaries(data), (x: DailySummary) => x.income) == CashTotals(data).income
    ensures WellTyped(data) ==>
      SumBy(DailySummaries(data), (x: DailySummary) => x.expense) == CashTotals(data).expense
  {
    NewestFirstIsPreorder();
    var order := KeyOrder(data, ByDate);
    var rows := Rows(order, data);
    PermutationSum(rows, DailySummaries(data), (x: DailySummary) => x.income);
    PermutationSum(rows, DailySummaries(data), (x: DailySummary) => x.expense);
    RowsIncome(order, data);
    RowsExpense(order, data);
    GroupsAddUp(data, ByDate, IncomeW);
    GroupsAddUp(data, ByDate, ExpenseW);
    KindWeights(data, IncomeW, "income");
    if WellTyped(data) {
      KindWeights(data, ExpenseW, "expense");
    }
  }

  /**
   * An entry of any other kind shows as an expense of its day, yet counts in
   * neither total.
   */
  lemma OtherKindCountsAsDailyExpense()
    ensures var data := [Entry("1", "transfer", "bank", "", 5.0, "2024-05-01")];
      ExpenseOn(data, "2024-05-01") == 5.0 && CashTotals(data).expense == 0.0
  {
    var data := [Entry("1", "transfer", "bank", "", 5.0, "2024-05-01")];
    assert data[..0] == [];
  }

  // ---------------------------------------------------------------------------
  // Category breakdown
  // ---------------------------------------------------------------------------

  /** `b[1] - a[1]` at most zero: the larger sum may come first. */
  function LargerFirst(a: (string, real), b: (string, real)): bool
  {
    a.1 >= b.1
  }

  lemma LargerFirstIsPreorder()
    ensures TotalPreorder(LargerFirst)
  {
  }

  /** The categories of kind `t` with their sums, in `Map` order. */
  function CategorySums(entries: seq<Entry>, t: string): (r: seq<(string, real)>)
    ensures |r| == |KeyOrder(OfKind(entries, t), ByCategory)|
  {
    var chosen := OfKind(entries, t);
    var order := KeyOrder(chosen, ByCategory);
    seq(|order|, k requires 0 <= k < |order| => (order[k], GroupSum(chosen, ByCategory, order[k], AmountW)))
  }

  /** The category sums, largest first; equal sums keep their `Map` order. */
  function SortedCategorySums(entries: seq<Entry>, t: string): seq<(string, real)>
  {
    LargerFirstIsPreorder();
    SortBy(CategorySums(entries, t), LargerFirst)
  }

  /** What `categoryBreakdown(t)` returns. */
  function CategoryBreakdown(entries: seq<Entry>, t: string): (r: seq<(string, real)>)
    ensures |r| == if |KeyOrder(OfKind(entries, t), ByCategory)| < 5 then |KeyOrder(OfKind(entries, t), ByCategory)| else 5
    ensures Sorted(r, LargerFirst)
  {
    Take(SortedCategorySums(entries, t), 5)
  }

  /** Reads the entries of kind `t` once into a map of running sums, then sorts and cuts. */
  method ComputeCategoryBreakdown(entries: seq<Entry>, t: string) returns (top: seq<(string, real)>)
    ensures top == CategoryBreakdown(entries, t)
  {
    var chosen := OfKind(entries, t);
    var categories, order := SumByCategory(chosen);
    ListedCategoriesAreSums(entries, t);
    var pairs := ListedCategories(order, categories);
    LargerFirstIsPreorder();
    top := Take(SortBy(pairs, LargerFirst), 5);
  }

  /** The `forEach` that adds each entry's amount to its category's running sum. */
  method SumByCategory(chosen: seq<Entry>) returns (categories: map<string, real>, order: seq<string>)
    ensures order == KeyOrder(chosen, ByCategory)
    ensures categories == GroupMap(chosen, ByCategory, AmountW)
  {
    categories := map[];
    order := [];
    ghost var seen: seq<Entry> := [];
    for i := 0 to |chosen|
      invariant seen == chosen[..i]
      invariant order == KeyOrder(seen, ByCategory)
      invariant categories == GroupMap(seen, ByCategory, AmountW)
    {
      var e := chosen[i];
      CategoryStep(seen, e);
      CategoryOrderStep(seen, e);
      if e.category !in categories {
        order := order + [e.category];
      }
      categories := categories[e.category := (if e.category in categories then categories[e.category] else 0.0) + e.amount];
      seen := seen + [e];
    }
    assert chosen[..|chosen|] == chosen;
  }

  /** One more entry: its category is new exactly when the map lacks it, and its amount is added there. */
  lemma CategoryStep(seen: seq<Entry>, e: Entry)
    ensures var m := GroupMap(seen, ByCategory, AmountW);
      GroupMap(seen + [e], ByCategory, AmountW)
         == m[e.category := (if e.category in m then m[e.category] else 0.0) + e.amount]
  {
    GroupMapSnoc(seen, e, ByCategory, AmountW);
  }

  /** The map has the categories in their order of first appearance, and a new category joins at the end. */
  lemma CategoryOrderStep(seen: seq<Entry>, e: Entry)
    ensures e.category in GroupMap(seen, ByCategory, AmountW) <==> e.category in KeyOrder(seen, ByCategory)
    ensures KeyOrder(seen + [e], ByCategory)
      == if e.category in KeyOrder(seen, ByCategory) then KeyOrder(seen, ByCategory)
         else KeyOrder(seen, ByCategory) + [e.category]
  {
    KeyOrderSnoc(seen, e, ByCategory);
  }

  /** `Array.from(categories.entries())`: one pair per category, in `Map` order. */
  function ListedCategories(order: seq<string>, m: map<string, real>): seq<(string, real)>
    requires forall c :: c in order ==> c in m
  {
    seq(|order|, k requires 0 <= k < |order| => (order[k], m[order[k]]))
  }

  /** Reading the map of running sums in insertion order gives the category sums. */
  lemma ListedCategoriesAreSums(entries: seq<Entry>, t: string)
    ensures var chosen := OfKind(entries, t);
      forall c :: c in KeyOrder(chosen, ByCategory) ==> c in GroupMap(chosen, ByCategory, AmountW)
    ensures var chosen := OfKind(entries, t);
      ListedCategories(KeyOrder(chosen, ByCategory), GroupMap(chosen, ByCategory, AmountW)) == CategorySums(entries, t)
  {
    var chosen := OfKind(entries, t);
    var order := KeyOrder(chosen, ByCategory);
    var m := GroupMap(chosen, ByCategory, AmountW);
    var l := ListedCategories(order, m);
    var r := CategorySums(entries, t);
    assert |l| == |r|;
    forall k | 0 <= k < |order| ensures l[k] == r[k] {
      assert m[order[k]] == GroupSum(chosen, ByCategory, order[k], AmountW);
    }
  }

  function Names(r: seq<(string, real)>): set<string>
  {
    set i | 0 <= i < |r| :: r[i].0
  }

  /** Each pair is a category of the entries `chosen`, with its sum. */
  predicate CategoriesWithSums(r: seq<(string, real)>, chosen: seq<Entry>)
  {
    forall i :: 0 <= i < |r| ==>
      r[i].0 in KeyOrder(chosen, ByCategory) && r[i].1 == GroupSum(chosen, ByCategory, r[i].0, AmountW)
  }

  /** No category twice, and the sums never grow. */
  predicate DistinctLargestFirst(r: seq<(string, real)>)
  {
    forall i, j :: 0 <= i < j < |r| ==> r[i].0 != r[j].0 && r[i].1 >= r[j].1
  }

  /** Sorting keeps every category with its sum, once each. */
  lemma SortedCategorySumsMeaning(entries: seq<Entry>, t: string)
    ensures CategoriesWithSums(SortedCategorySums(entries, t), OfKind(entries, t))
    ensures DistinctLargestFirst(SortedCategorySums(entries, t))
    ensures forall c :: c in KeyOrder(OfKind(entries, t), ByCategory) ==> c in Names(SortedCategorySums(entries, t))
  {
    LargerFirstIsPreorder();
    var chosen := OfKind(entries, t);
    KeyOrderMembers(chosen, ByCategory);
    var order := KeyOrder(chosen, ByCategory);
    var pairs := CategorySums(entries, t);
    var sorted := SortedCategorySums(entries, t);
    assert Distinct(pairs) by {
      forall i, j | 0 <= i < j < |pairs| ensures pairs[i] != pairs[j] {
        assert pairs[i].0 == order[i] && pairs[j].0 == order[j];
      }
    }
    PermutationDistinct(pairs, sorted);
    forall i | 0 <= i < |sorted|
      ensures sorted[i].0 in order && sorted[i].1 == GroupSum(chosen, ByCategory, sorted[i].0, AmountW)
    {
      PermutationMembers(pairs, sorted, i);
    }
    forall i, j | 0 <= i < j < |sorted| ensures sorted[i].0 != sorted[j].0 && sorted[i].1 >= sorted[j].1 {
      assert LargerFirst(sorted[i], sorted[j]);
    }
    forall c | c in order ensures c in Names(sorted) {
      var k :| 0 <= k < |order| && order[k] == c;
      assert pairs[k] in multiset(sorted);
      var j :| 0 <= j < |sorted| && sorted[j] == pairs[k];
      assert sorted[j].0 == c;
    }
  }

  /**
   * At most five categories, each a category of kind `t` with its sum, none
   * twice, largest first; and no category left out has a larger sum than one
   * that was kept.
   */
  lemma CategoryBreakdownMeaning(entries: seq<Entry>, t: string)
    ensures |CategoryBreakdown(entries, t)| <= 5
    ensures CategoriesWithSums(CategoryBreakdown(entries, t), OfKind(entries, t))
    ensures DistinctLargestFirst(CategoryBreakdown(entries, t))
    ensures var r := CategoryBreakdown(entries, t); var chosen := OfKind(entries, t);
      forall c, i :: c in KeyOrder(chosen, ByCategory) && c !in Names(r) && 0 <= i < |r| ==>
        GroupSum(chosen, ByCategory, c, AmountW) <= r[i].1
  {
    SortedCategorySumsMeaning(entries, t);
    var sorted := SortedCategorySums(entries, t);
    PrefixMeaning(sorted, |CategoryBreakdown(entries, t)|, OfKind(entries, t));
    var r := CategoryBreakdown(entries, t);
    var chosen := OfKind(entries, t);
    forall c, i | c in KeyOrder(chosen, ByCategory) && c !in Names(r) && 0 <= i < |r|
      ensures GroupSum(chosen, ByCategory, c, AmountW) <= r[i].1
    {
      LeftOutNotLarger(entries, t, c, i);
    }
  }

  /** Categories with equal sums are ranked in the order they were first met, as the stable sort leaves them. */
  lemma CategoryTieOrder(entries: seq<Entry>, t: string, x: (string, real))
    ensures Ties(SortedCategorySums(entries, t), x, LargerFirst) == Ties(CategorySums(entries, t), x, LargerFirst)
  {
    LargerFirstIsPreorder();
    SortByStable(CategorySums(entries, t), x, LargerFirst);
  }

  /** A prefix of sums with their categories, distinct and largest first, is one too. */
  lemma PrefixMeaning(sorted: seq<(string, real)>, n: nat, chosen: seq<Entry>)
    requires n <= |sorted|
    requires CategoriesWithSums(sorted, chosen) && DistinctLargestFirst(sorted)
    ensures CategoriesWithSums(sorted[..n], chosen) && DistinctLargestFirst(sorted[..n])
  {
    var p := sorted[..n];
    forall i | 0 <= i < n ensures p[i] == sorted[i] { }
  }

  /** A category cut from the breakdown sums to no more than any category kept. */
  lemma LeftOutNotLarger(entries: seq<Entry>, t: string, c: string, i: int)
    requires c in KeyOrder(OfKind(entries, t), ByCategory)
    requires c !in Names(CategoryBreakdown(entries, t))
    requires 0 <= i < |CategoryBreakdown(entries, t)|
    ensures GroupSum(OfKind(entries, t), ByCategory, c, AmountW) <= CategoryBreakdown(entries, t)[i].1
  {
    LargerFirstIsPreorder();
    SortedCategorySumsMeaning(entries, t);
    var sorted := SortedCategorySums(entries, t);
    var r := CategoryBreakdown(entries, t);
    var j :| 0 <= j < |sorted| && sorted[j].0 == c;
    forall k | 0 <= k < |r| ensures sorted[k].0 != c {
      assert r[k] == sorted[k];
      assert r[k].0 in Names(r);
    }
    TopN(CategorySums(entries, t), LargerFirst, 5, i, j);
  }
}
