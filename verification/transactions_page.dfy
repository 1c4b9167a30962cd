/** The transactions page: the amount guard of the entry form, the month
    filter, the income / expense / net figures over the filtered list with
    the signed net label, and the category reset when the form switches
    between income and expense. The month of a date is an input (it needs
    the calendar). */
module TransactionsPage {
  import opened Common
  import opened Domain
  import opened StoreDashboard
  import opened AppStore
  import opened DashboardPage

  const IncomeCategories: seq<string> := ["Client Payment", "Consulting", "Recurring", "Other Income"]
  const ExpenseCategories: seq<string> := ["Salaries", "Infrastructure", "Software", "Marketing", "Office", "Travel", "Misc"]

  /** The text of a number input is empty or a number, which here is whole. */
  predicate NumberText(amount: string) {
    ParseNumber(amount).Some?
  }

  /** `!amount || Number(amount) <= 0` rejects the entry. */
  predicate AmountRejected(amount: string)
    requires NumberText(amount)
  {
    amount == "" || ParseNumber(amount).value <= 0
  }

  /** An entry is accepted exactly when its text reads as a positive number. */
  lemma AmountRejectedSpec(amount: string, n: nat)
    requires NumberText(amount)
    ensures !AmountRejected(amount) <==> ParseNumber(amount).value > 0
    ensures ParseNumber(IntToString(n + 1)) == Some(n + 1)
    ensures !AmountRejected(IntToString(n + 1))
  {
    ParseNumberRoundTrip(n + 1);
  }

  // ---------------------------------------------------------------------------
  // The entry form
  // ---------------------------------------------------------------------------

  datatype TxForm = TxForm(kind: TxType, amount: string, category: string, note: string, date: string, open: bool)

  function CategoriesOf(kind: TxType): seq<string> {
    if kind == Income then IncomeCategories else ExpenseCategories
  }

  /** The "Add Income" / "Add Expense" buttons: the form switches to that type,
      its category goes back to the type's first category, and it opens. */
  function OpenForm(form: TxForm, kind: TxType): (r: TxForm)
    ensures r.category in CategoriesOf(kind)
  {
    form.(kind := kind, category := CategoriesOf(kind)[0], open := true)
  }

  /** After a switch the category is the first of the chosen type, never one
      of the other type, and the typed amount, note and date are kept. */
  lemma OpenFormSpec(form: TxForm, kind: TxType)
    ensures var r := OpenForm(form, kind);
            && r.kind == kind && r.open
            && r.category == (if kind == Income then "Client Payment" else "Salaries")
            && r.category !in CategoriesOf(if kind == Income then Expense else Income)
            && r.amount == form.amount && r.note == form.note && r.date == form.date
  {
  }

  /** `addTransaction` of the page: a rejected amount changes nothing;
      otherwise the store adds a transaction of the form's type, category and
      date with the amount and the trimmed note, and the form is cleared and
      closed (type and category stay). */
  function SubmitTransaction(form: TxForm, s: AppState, id: Id, today: string): (r: (TxForm, Step))
    requires NumberText(form.amount)
  {
    if AmountRejected(form.amount) then (form, Step(s, []))
    else
      var input := TxInput(form.kind, form.category, ParseNumber(form.amount).value, form.date, Trim(form.note));
      (form.(amount := "", note := "", date := today, open := false), AddTransaction(s, input, id))
  }

  /** For a signed-in owner the store changes exactly when the amount is
      positive; the new transaction at the front carries the form's type,
      category and date, that positive amount and the trimmed note, and the
      expenses total grows by the amount exactly for an expense. */
  lemma SubmitTransactionSpec(form: TxForm, s: AppState, id: Id, today: string)
    requires NumberText(form.amount) && s.uid.Some?
    ensures var r := SubmitTransaction(form, s, id, today);
            && (AmountRejected(form.amount) <==> r.1.state == s)
            && (!AmountRejected(form.amount) ==>
                  var t := r.1.state.transactions[0];
                  && r.1.state.transactions[1..] == s.transactions
                  && t.id == id && t.kind == form.kind && t.category == form.category
                  && t.amount == ParseNumber(form.amount).value && t.amount > 0
                  && t.date == form.date && t.note == Trim(form.note)
                  && TotalExpenses(r.1.state.transactions) == TotalExpenses(s.transactions) + (if t.kind == Expense then t.amount else 0)
                  && r.0.amount == "" && r.0.note == "" && !r.0.open)
  {
    var r := SubmitTransaction(form, s, id, today);
    if !AmountRejected(form.amount) {
      var input := TxInput(form.kind, form.category, ParseNumber(form.amount).value, form.date, Trim(form.note));
      AddTransactionDashboard(s, input, id);
      assert |r.1.state.transactions| == |s.transactions| + 1;
    }
  }

  // ---------------------------------------------------------------------------
  // Month filter and figures
  // ---------------------------------------------------------------------------

  /** `filterMonth === 'All'` keeps the list; any other choice keeps the
      transactions whose date falls in that month, in order. monthName maps
      a date to the name of its month. */
  function MonthFilter(txs: seq<Transaction>, filterMonth: string, monthName: string -> string): seq<Transaction> {
    if filterMonth == "All" then txs else Filter(txs, InMonth(filterMonth, monthName))
  }

  /** `t => MONTHS[new Date(t.date).getMonth()] === filterMonth`. */
  function InMonth(filterMonth: string, monthName: string -> string): Transaction -> bool {
    (t: Transaction) => monthName(t.date) == filterMonth
  }

  /** 'All' gives the list itself; another month gives a subsequence that
      holds exactly the transactions of that month, each as often as it
      occurs. */
  lemma MonthFilterSpec(txs: seq<Transaction>, filterMonth: string, monthName: string -> string)
    ensures filterMonth == "All" ==> MonthFilter(txs, filterMonth, monthName) == txs
    ensures IsSubsequence(MonthFilter(txs, filterMonth, monthName), txs)
    ensures filterMonth != "All" ==>
              var r := MonthFilter(txs, filterMonth, monthName);
              && (forall k :: 0 <= k < |r| ==> monthName(r[k].date) == filterMonth)
              && (forall k :: 0 <= k < |txs| && monthName(txs[k].date) == filterMonth ==> txs[k] in r)
              && (forall t :: multiset(r)[t] == if monthName(t.date) == filterMonth then multiset(txs)[t] else 0)
  {
    if filterMonth == "All" {
      SubsequenceOfItself(txs);
    } else {
      FilterIsSubsequence(txs, InMonth(filterMonth, monthName));
      FilterMultiset(txs, InMonth(filterMonth, monthName));
    }
  }

  lemma {:induction false} SubsequenceOfItself(xs: seq<Transaction>)
    ensures IsSubsequence(xs, xs)
  {
    if xs != [] {
      SubsequenceOfItself(xs[1..]);
    }
  }

  datatype Figures = Figures(totalIn: int, totalOut: int, net: int)

  /** `totalIn`, `totalOut` and `net` over the filtered list. */
  function FiguresOf(filtered: seq<Transaction>): Figures {
    var totalIn := Sum(Filter(filtered, IsIncome), Amount);
    var totalOut := Sum(Filter(filtered, IsExpense), Amount);
    Figures(totalIn, totalOut, totalIn - totalOut)
  }

  /** Income and expenses split the filtered amounts between them; over all
      months the expense figure is the dashboard's total expenses. */
  lemma FiguresSpec(txs: seq<Transaction>, filterMonth: string, monthName: string -> string)
    ensures var f := FiguresOf(MonthFilter(txs, filterMonth, monthName));
            && f.totalIn + f.totalOut == Sum(MonthFilter(txs, filterMonth, monthName), Amount)
            && f.net == f.totalIn - f.totalOut
            && (filterMonth == "All" ==> f.totalOut == TotalExpenses(txs))
  {
    SumFilterSplit(MonthFilter(txs, filterMonth, monthName), Amount, IsIncome, IsExpense);
  }

  /** `{net >= 0 ? '+' : '-'}₹{Math.abs(net)}`. */
  function NetLabel(net: int): string {
    (if net >= 0 then "+" else "-") + Rupee + NatToString(if net >= 0 then net else -net)
  }

  /** The label is the dashboard's currency text with a '+' in front for a
      net of zero or more, and the very same text below zero; its sign reads
      back, and so do the digits. */
  lemma NetLabelSpec(net: int)
    ensures net < 0 ==> NetLabel(net) == FormatCurrency(net)
    ensures net >= 0 ==> NetLabel(net) == "+" + FormatCurrency(net)
    ensures (NetLabel(net)[0] == '+' <==> net >= 0) && (NetLabel(net)[0] == '-' <==> net < 0)
    ensures ParseNat(NetLabel(net)[2..]) == Some(if net >= 0 then net else -net)
  {
    var m := if net >= 0 then net else -net;
    assert NetLabel(net)[2..] == NatToString(m);
    ParseNatRoundTrip(m);
  }
}
