/** The dashboard figures the app store derives from the invoice and
    transaction lists: revenue from paid invoices, payments still pending,
    expenses, net profit, and the expense pie with one slice per expense
    category in the order the categories first appear. The six-month chart
    depends on the calendar and is not part of this model. */
module StoreDashboard {
  import opened Common
  import opened Domain

  function InvoiceAmount(inv: Invoice): int { InvoiceTotal(inv.items) }
  function Amount(t: Transaction): int { t.amount }

  predicate IsPaid(inv: Invoice) { inv.status == Paid }
  predicate IsUnpaid(inv: Invoice) { inv.status == Pending }
  predicate IsExpense(t: Transaction) { t.kind == Expense }
  predicate IsIncome(t: Transaction) { t.kind == Income }

  function TotalRevenue(invs: seq<Invoice>): int { Sum(Filter(invs, IsPaid), InvoiceAmount) }
  function PendingPayments(invs: seq<Invoice>): int { Sum(Filter(invs, IsUnpaid), InvoiceAmount) }
  function TotalExpenses(txs: seq<Transaction>): int { Sum(Filter(txs, IsExpense), Amount) }

  /** An invoice's amount counted only when it is paid (resp. pending). */
  function PaidAmount(inv: Invoice): int { if IsPaid(inv) then InvoiceAmount(inv) else 0 }
  function UnpaidAmount(inv: Invoice): int { if IsUnpaid(inv) then InvoiceAmount(inv) else 0 }
  function ExpenseAmount(t: Transaction): int { if IsExpense(t) then t.amount else 0 }

  /** Every invoice is either paid or pending, so revenue and pending
      payments together are the total of all invoices. */
  lemma RevenuePlusPending(invs: seq<Invoice>)
    ensures TotalRevenue(invs) + PendingPayments(invs) == Sum(invs, InvoiceAmount)
  {
    SumFilterSplit(invs, InvoiceAmount, IsPaid, IsUnpaid);
  }

  /** The filtered sums as sums of the per-row amounts. */
  lemma TotalsAsSums(invs: seq<Invoice>, txs: seq<Transaction>)
    ensures TotalRevenue(invs) == Sum(invs, PaidAmount)
    ensures PendingPayments(invs) == Sum(invs, UnpaidAmount)
    ensures TotalExpenses(txs) == Sum(txs, ExpenseAmount)
  {
    SumFilter(invs, InvoiceAmount, IsPaid, PaidAmount);
    SumFilter(invs, InvoiceAmount, IsUnpaid, UnpaidAmount);
    SumFilter(txs, Amount, IsExpense, ExpenseAmount);
  }

  // ---------------------------------------------------------------------------
  // First-seen order of a list of names
  // ---------------------------------------------------------------------------

  predicate Distinct(s: seq<string>) {
    forall i, j :: 0 <= i < j < |s| ==> s[i] != s[j]
  }

  /** The names of s without repeats, each where it first occurs: a
      reference for the insertion order of a JavaScript Map. */
  function Dedup(s: seq<string>): seq<string> {
    if s == [] then []
    else
      var d := Dedup(s[..|s| - 1]);
      if s[|s| - 1] in d then d else d + [s[|s| - 1]]
  }

  /** Dedup keeps every name of s once, in the order of first occurrence. */
  lemma {:induction false} DedupSpec(s: seq<string>)
    ensures forall x :: x in Dedup(s) <==> x in s
    ensures Distinct(Dedup(s))
    ensures forall i, j :: 0 <= i < j < |Dedup(s)| ==> FirstIndex(s, Dedup(s)[i]) < FirstIndex(s, Dedup(s)[j])
  {
    if s != [] {
      var front := s[..|s| - 1];
      var y := s[|s| - 1];
      var d := Dedup(front);
      assert s == front + [y];
      DedupSpec(front);
      forall x | x in d
        ensures FirstIndex(s, x) == FirstIndex(front, x) < |front|
      {
        FirstIndexAppend(front, y, x);
      }
      if y !in d {
        FirstIndexAppend(front, y, y);
        var e := d + [y];
        assert e[|d|] == y;
        forall i, j | 0 <= i < j < |e|
          ensures e[i] != e[j] && FirstIndex(s, e[i]) < FirstIndex(s, e[j])
        {
          assert e[i] == d[i] && e[i] in d;
          if j < |d| {
            assert e[j] == d[j];
          }
        }
      }
    }
  }

  // ---------------------------------------------------------------------------
  // Expense pie: a Map from category to spend, in insertion order
  // ---------------------------------------------------------------------------

  /** The entries of the category map, in insertion order. */
  type Entries = seq<(string, int)>

  function EntryName(e: (string, int)): string { e.0 }

  /** The map's keys, in insertion order. */
  function Names(es: Entries): (r: seq<string>)
    ensures |r| == |es| && forall i :: 0 <= i < |es| ==> r[i] == es[i].0
  {
    MapSeq(es, EntryName)
  }

  /** What the map holds under a name: the sum of the entries with that name
      (at most one when the names are distinct), 0 when there is none. */
  function ValueOf(es: Entries, name: string): int {
    if es == [] then 0 else (if es[0].0 == name then es[0].1 else 0) + ValueOf(es[1..], name)
  }

  function SumValues(es: Entries): int {
    if es == [] then 0 else es[0].1 + SumValues(es[1..])
  }

  /** `map.set(c, (map.get(c) ?? 0) + a)`: an existing entry keeps its place
      and grows by a; a new name is appended. */
  function AddToCategory(es: Entries, c: string, a: int): (r: Entries)
    ensures |es| <= |r| <= |es| + 1
  {
    if es == [] then [(c, a)]
    else if es[0].0 == c then [(c, es[0].1 + a)] + es[1..]
    else [es[0]] + AddToCategory(es[1..], c, a)
  }

  /** Adding to a category appends its name only when it is new, adds a to
      that category's value and to the total, and changes no other category. */
  lemma {:induction false} AddToCategorySpec(es: Entries, c: string, a: int, n: string)
    ensures Names(AddToCategory(es, c, a)) == if c in Names(es) then Names(es) else Names(es) + [c]
    ensures ValueOf(AddToCategory(es, c, a), n) == ValueOf(es, n) + (if n == c then a else 0)
    ensures SumValues(AddToCategory(es, c, a)) == SumValues(es) + a
  {
    var r := AddToCategory(es, c, a);
    if es == [] {
    } else if es[0].0 == c {
      assert r[1..] == es[1..];
    } else {
      AddToCategorySpec(es[1..], c, a, n);
      assert r[1..] == AddToCategory(es[1..], c, a);
    }
  }

  /** The keys of xs, in order. */
  function Keys<T>(xs: seq<T>, key: T -> string): seq<string> {
    MapSeq(xs, key)
  }

  /** The values of the elements of xs with key c, summed. */
  function Spend<T>(xs: seq<T>, key: T -> string, val: T -> int, c: string): int {
    Sum(xs, (x: T) => if key(x) == c then val(x) else 0)
  }

  /** The map from key to summed value built by visiting xs in order
      (`map.set(key, (map.get(key) ?? 0) + value)` for each element). */
  function Tally<T>(xs: seq<T>, key: T -> string, val: T -> int): Entries {
    if xs == [] then []
    else
      var last := xs[|xs| - 1];
      AddToCategory(Tally(xs[..|xs| - 1], key, val), key(last), val(last))
  }

  /** The tally lists the keys of xs in first-seen order and holds each key's
      summed value; its values add up to the sum over all of xs. */
  lemma {:induction false} TallySpec<T>(xs: seq<T>, key: T -> string, val: T -> int, n: string)
    ensures Names(Tally(xs, key, val)) == Dedup(Keys(xs, key))
    ensures ValueOf(Tally(xs, key, val), n) == Spend(xs, key, val, n)
    ensures SumValues(Tally(xs, key, val)) == Sum(xs, val)
  {
    if xs != [] {
      var front := xs[..|xs| - 1];
      var last := xs[|xs| - 1];
      TallySpec(front, key, val, n);
      AddToCategorySpec(Tally(front, key, val), key(last), val(last), n);
      assert Keys(xs, key)[..|xs| - 1] == Keys(front, key);
    }
  }

  function Category(t: Transaction): string { t.category }

  /** The spend of one category: the amounts of its transactions summed. */
  function CategorySpend(xs: seq<Transaction>, c: string): int {
    Spend(xs, Category, Amount, c)
  }

  function Categories(xs: seq<Transaction>): seq<string> {
    Keys(xs, Category)
  }

  /** The category map of the expense pie. */
  function CategoryTotals(xs: seq<Transaction>): Entries {
    Tally(xs, Category, Amount)
  }

  /** The slice colours, cycled through by position. */
  const Colors: seq<string> := ["#3b82f6", "#06b6d4", "#8b5cf6", "#f59e0b", "#22c55e", "#ef4444", "#14b8a6"]

  datatype Slice = Slice(name: string, value: int, color: string)

  /** The expense pie: the category map of the expenses, slice i coloured
      with colour i mod 7. */
  function ExpensePie(txs: seq<Transaction>): (pie: seq<Slice>)
    ensures var es := CategoryTotals(Filter(txs, IsExpense));
            && |pie| == |es|
            && forall i :: 0 <= i < |pie| ==> pie[i] == Slice(es[i].0, es[i].1, Colors[i % |Colors|])
  {
    var es := CategoryTotals(Filter(txs, IsExpense));
    seq(|es|, i requires 0 <= i < |es| => Slice(es[i].0, es[i].1, Colors[i % |Colors|]))
  }

  function PieNames(pie: seq<Slice>): (r: seq<string>)
    ensures |r| == |pie| && forall i :: 0 <= i < |pie| ==> r[i] == pie[i].name
  {
    seq(|pie|, i requires 0 <= i < |pie| => pie[i].name)
  }

  function PieTotal(pie: seq<Slice>): int {
    if pie == [] then 0 else pie[0].value + PieTotal(pie[1..])
  }

  lemma {:induction false} PieTotalOf(pie: seq<Slice>, es: Entries)
    requires |pie| == |es| && forall i :: 0 <= i < |pie| ==> pie[i].value == es[i].1
    ensures PieTotal(pie) == SumValues(es)
  {
    if pie != [] {
      PieTotalOf(pie[1..], es[1..]);
    }
  }

  /** With distinct names, an entry's value is what the map holds under its name. */
  lemma {:induction false} DistinctValue(es: Entries, i: nat)
    requires Distinct(Names(es)) && i < |es|
    ensures ValueOf(es, es[i].0) == es[i].1
  {
    var ns := Names(es);
    assert Distinct(Names(es[1..])) by {
      assert Names(es[1..]) == ns[1..];
    }
    if i == 0 {
      assert ns == [es[0].0] + Names(es[1..]);
      forall j | 0 <= j < |es| - 1
        ensures Names(es[1..])[j] != es[0].0
      {
        assert ns[0] == es[0].0 && ns[j + 1] == Names(es[1..])[j];
        assert ns[0] != ns[j + 1];
      }
      NoOtherValue(es[1..], es[0].0);
    } else {
      DistinctValue(es[1..], i - 1);
    }
  }

  lemma {:induction false} NoOtherValue(es: Entries, n: string)
    requires n !in Names(es)
    ensures ValueOf(es, n) == 0
  {
    if es != [] {
      NoOtherValue(es[1..], n);
    }
  }

  /** The names of the pie are the expense categories in first-seen order. */
  lemma PieNamesAre(txs: seq<Transaction>)
    ensures PieNames(ExpensePie(txs)) == Dedup(Categories(Filter(txs, IsExpense)))
  {
    var ex := Filter(txs, IsExpense);
    var es := CategoryTotals(ex);
    TallySpec(ex, Category, Amount, "");
    forall i | 0 <= i < |es|
      ensures PieNames(ExpensePie(txs))[i] == Names(es)[i]
    {
    }
  }

  /** The expense pie has exactly one slice per category that has an
      expense, in the order the categories first appear among the expenses;
      each slice's value is that category's expense spend, and the slices add
      up to the total expenses. */
  lemma ExpensePieSpec(txs: seq<Transaction>)
    ensures var pie := ExpensePie(txs);
            var cats := Categories(Filter(txs, IsExpense));
            && Distinct(PieNames(pie))
            && (forall n :: n in PieNames(pie) <==> n in cats)
            && (forall i, j :: 0 <= i < j < |pie| ==> FirstIndex(cats, pie[i].name) < FirstIndex(cats, pie[j].name))
            && (forall i :: 0 <= i < |pie| ==> pie[i].value == CategorySpend(Filter(txs, IsExpense), pie[i].name))
            && PieTotal(pie) == TotalExpenses(txs)
  {
    var pie := ExpensePie(txs);
    var ex := Filter(txs, IsExpense);
    var es := CategoryTotals(ex);
    PieNamesAre(txs);
    DedupSpec(Categories(ex));
    TallySpec(ex, Category, Amount, "");
    PieTotalOf(pie, es);
    forall i | 0 <= i < |pie|
      ensures pie[i].value == CategorySpend(ex, pie[i].name)
    {
      DistinctValue(es, i);
      TallySpec(ex, Category, Amount, pie[i].name);
    }
    forall i, j | 0 <= i < j < |pie|
      ensures FirstIndex(Categories(ex), pie[i].name) < FirstIndex(Categories(ex), pie[j].name)
    {
      assert PieNames(pie)[i] == pie[i].name && PieNames(pie)[j] == pie[j].name;
    }
  }

  /** A category is in the pie iff some expense has it. */
  lemma PieHasCategory(txs: seq<Transaction>, n: string)
    ensures n in PieNames(ExpensePie(txs)) <==> exists k :: 0 <= k < |txs| && IsExpense(txs[k]) && txs[k].category == n
  {
    var ex := Filter(txs, IsExpense);
    ExpensePieSpec(txs);
    if n in Categories(ex) {
      var m :| 0 <= m < |ex| && Categories(ex)[m] == n;
      assert ex[m] in txs;
      var k :| 0 <= k < |txs| && txs[k] == ex[m];
    }
    if exists k :: 0 <= k < |txs| && IsExpense(txs[k]) && txs[k].category == n {
      var k :| 0 <= k < |txs| && IsExpense(txs[k]) && txs[k].category == n;
      assert txs[k] in ex;
      var m :| 0 <= m < |ex| && ex[m] == txs[k];
      assert Categories(ex)[m] == n;
    }
  }

  // ---------------------------------------------------------------------------
  // The dashboard
  // ---------------------------------------------------------------------------

  datatype Dashboard = Dashboard(
    totalRevenue: int,
    totalExpenses: int,
    netProfit: int,
    pendingPayments: int,
    expensePie: seq<Slice>)

  /** computeDashboard without the six-month chart. */
  function ComputeDashboard(invs: seq<Invoice>, txs: seq<Transaction>): (d: Dashboard)
    ensures d.netProfit == d.totalRevenue - d.totalExpenses
    ensures d.totalRevenue + d.pendingPayments == Sum(invs, InvoiceAmount)
    ensures d.totalRevenue == Sum(invs, PaidAmount)
    ensures d.totalExpenses == Sum(txs, ExpenseAmount)
    ensures PieTotal(d.expensePie) == d.totalExpenses
  {
    RevenuePlusPending(invs);
    TotalsAsSums(invs, txs);
    ExpensePieSpec(txs);
    var revenue := TotalRevenue(invs);
    var expenses := TotalExpenses(txs);
    Dashboard(revenue, expenses, revenue - expenses, PendingPayments(invs), ExpensePie(txs))
  }
}
