/** The expenses page: the expense transactions, the month filter over them,
    their total, and the expense form, which always records an expense. */
module ExpensesPage {
  import opened Common
  import opened Domain
  import opened StoreDashboard
  import opened AppStore
  import opened TransactionsPage

  /** `data.transactions.filter(t => t.type === 'Expense')`. */
  function Expenses(txs: seq<Transaction>): seq<Transaction> {
    Filter(txs, IsExpense)
  }

  /** The expenses are exactly the expense transactions, in their order and
      as often as they occur. */
  lemma ExpensesSpec(txs: seq<Transaction>)
    ensures var e := Expenses(txs);
            && IsSubsequence(e, txs)
            && (forall k :: 0 <= k < |e| ==> e[k].kind == Expense)
            && (forall k :: 0 <= k < |txs| && txs[k].kind == Expense ==> txs[k] in e)
            && (forall t :: multiset(e)[t] == if t.kind == Expense then multiset(txs)[t] else 0)
  {
    FilterIsSubsequence(txs, IsExpense);
    FilterMultiset(txs, IsExpense);
  }

  /** `filtered.reduce((s, t) => s + t.amount, 0)` over the month's expenses. */
  function ExpenseTotal(txs: seq<Transaction>, filterMonth: string, monthName: string -> string): int {
    Sum(MonthFilter(Expenses(txs), filterMonth, monthName), Amount)
  }

  /** Over all months the page's total is the dashboard's total expenses;
      with non-negative amounts a month never totals more than all months. */
  lemma ExpenseTotalSpec(txs: seq<Transaction>, filterMonth: string, monthName: string -> string)
    ensures ExpenseTotal(txs, "All", monthName) == TotalExpenses(txs)
    ensures (forall k :: 0 <= k < |txs| ==> txs[k].amount >= 0) ==>
              0 <= ExpenseTotal(txs, filterMonth, monthName) <= TotalExpenses(txs)
  {
    var e := Expenses(txs);
    if forall k :: 0 <= k < |txs| ==> txs[k].amount >= 0 {
      forall k | 0 <= k < |e|
        ensures Amount(e[k]) >= 0
      {
        assert e[k] in txs;
      }
      SumNonNegative(e, Amount);
      if filterMonth != "All" {
        var p := InMonth(filterMonth, monthName);
        var q := (t: Transaction) => !p(t);
        SumFilterSplit(e, Amount, p, q);
        forall k | 0 <= k < |Filter(e, p)|
          ensures Amount(Filter(e, p)[k]) >= 0
        {
          assert Filter(e, p)[k] in e;
        }
        forall k | 0 <= k < |Filter(e, q)|
          ensures Amount(Filter(e, q)[k]) >= 0
        {
          assert Filter(e, q)[k] in e;
        }
        SumNonNegative(Filter(e, p), Amount);
        SumNonNegative(Filter(e, q), Amount);
      }
    }
  }

  /** `saveExpense`: like the transactions form, but the type is always
      Expense. */
  function SaveExpense(form: TxForm, s: AppState, id: Id, today: string): (r: (TxForm, Step))
    requires NumberText(form.amount)
  {
    SubmitTransaction(form.(kind := Expense), s, id, today)
  }

  /** For a signed-in owner a positive amount adds one expense, whatever type
      the form held, and raises the expense total by that amount; any other
      amount changes nothing. */
  lemma SaveExpenseSpec(form: TxForm, s: AppState, id: Id, today: string)
    requires NumberText(form.amount) && s.uid.Some?
    ensures var r := SaveExpense(form, s, id, today);
            && (AmountRejected(form.amount) <==> r.1.state == s)
            && (!AmountRejected(form.amount) ==>
                  && r.1.state.transactions[0].kind == Expense
                  && r.1.state.transactions[0].amount > 0
                  && TotalExpenses(r.1.state.transactions) == TotalExpenses(s.transactions) + ParseNumber(form.amount).value)
  {
    SubmitTransactionSpec(form.(kind := Expense), s, id, today);
  }
}
