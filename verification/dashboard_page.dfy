/** The dashboard page's own logic: the currency prefix and sign, the five
    most recent transactions, the top-clients ranking with its bar widths,
    and the welcome initials (see the Words module). Digit grouping of the
    Indian locale is not modelled: amounts are written as plain digits. */
module DashboardPage {
  import opened Common
  import opened Domain
  import opened Sorting
  import opened LexOrder
  import opened StoreDashboard

  const Rupee: string := "\U{20B9}"

  /** `formatCurrency(v)`: "-₹" and the digits of |v| below zero, else "₹"
      and the digits of v. */
  function FormatCurrency(v: int): string {
    if v < 0 then "-" + Rupee + NatToString(-v) else Rupee + NatToString(v)
  }

  /** The text starts with a minus sign exactly for a negative amount, the
      prefix is followed by the digits of the magnitude, and they read back
      as that magnitude. */
  lemma FormatCurrencySpec(v: int)
    ensures var r := FormatCurrency(v);
            var k := if v < 0 then 2 else 1;
            && (r[0] == '-' <==> v < 0)
            && |r| > k && r[..k] == (if v < 0 then "-" + Rupee else Rupee)
            && ParseNat(r[k..]) == Some(if v < 0 then -v else v)
  {
    var r := FormatCurrency(v);
    if v < 0 {
      assert r[2..] == NatToString(-v);
      ParseNatRoundTrip(-v);
    } else {
      assert r[1..] == NatToString(v);
      ParseNatRoundTrip(v);
    }
  }

  /** Different amounts are shown as different texts. */
  lemma FormatCurrencyInjective(a: int, b: int)
    requires a != b
    ensures FormatCurrency(a) != FormatCurrency(b)
  {
    FormatCurrencySpec(a);
    FormatCurrencySpec(b);
  }

  /** A negative amount is shown as its magnitude with a leading minus. */
  lemma FormatCurrencyNegate(v: int)
    requires v > 0
    ensures FormatCurrency(-v) == "-" + FormatCurrency(v)
  {
  }

  // ---------------------------------------------------------------------------
  // Last five transactions
  // ---------------------------------------------------------------------------

  /** `(a, b) => b.date.localeCompare(a.date)` as "a sorts no later than b":
      the later date first. */
  predicate NewerFirst(a: Transaction, b: Transaction) {
    LexLe(b.date, a.date)
  }

  lemma NewerFirstPreorder()
    ensures TotalPreorder(NewerFirst)
  {
    LexLeTotalAll();
    LexLeTransitiveAll();
  }

  /** A sorted copy of the transactions, cut to five. */
  function Last5(txs: seq<Transaction>): (r: seq<Transaction>)
    ensures |r| == if |txs| < 5 then |txs| else 5
  {
    Take(SortBy(txs, NewerFirst), 5)
  }

  /** The list holds the five newest transactions (all of them when there
      are fewer), newest first: it is drawn from the transactions, and none
      left out is newer than any shown. */
  lemma Last5Spec(txs: seq<Transaction>)
    ensures var r := Last5(txs);
            && multiset(r) <= multiset(txs)
            && (forall i, j :: 0 <= i < j < |r| ==> LexLe(r[j].date, r[i].date))
            && (forall x :: x in multiset(txs) - multiset(r) ==> forall i :: 0 <= i < |r| ==> LexLe(x.date, r[i].date))
  {
    var s := SortBy(txs, NewerFirst);
    var r := Last5(txs);
    NewerFirstPreorder();
    assert r == s[..|r|];
    PrefixOfSorted(s, |r|, NewerFirst);
  }

  // ---------------------------------------------------------------------------
  // Top clients
  // ---------------------------------------------------------------------------

  function Client(inv: Invoice): string { inv.client }

  /** The client map: each client of a paid invoice with the sum of its paid
      invoice totals, in first-seen order. */
  function ClientTotals(invs: seq<Invoice>): Entries {
    Tally(Filter(invs, IsPaid), Client, InvoiceAmount)
  }

  /** `(a, b) => b[1] - a[1]`: the larger total first. */
  predicate LargerFirst(a: (string, int), b: (string, int)) {
    a.1 >= b.1
  }

  lemma LargerFirstPreorder()
    ensures TotalPreorder(LargerFirst)
  {
  }

  /** The client map sorted by total, largest first, cut to five. */
  function TopClients(invs: seq<Invoice>): (r: Entries)
    ensures |r| == if |ClientTotals(invs)| < 5 then |ClientTotals(invs)| else 5
  {
    Take(SortBy(ClientTotals(invs), LargerFirst), 5)
  }

  /** What the client paid: the totals of its paid invoices summed. */
  function PaidBy(invs: seq<Invoice>, client: string): int {
    Spend(Filter(invs, IsPaid), Client, InvoiceAmount, client)
  }

  /** The facts the ranking lemmas share: the ranking is a prefix of a
      rearrangement of the client map, whose names are distinct and whose
      values are what each client paid. */
  lemma TopClientsFrom(invs: seq<Invoice>)
    ensures var es := ClientTotals(invs);
            var s := SortBy(es, LargerFirst);
            && TopClients(invs) == s[..|TopClients(invs)|]
            && multiset(s) == multiset(es)
            && Distinct(Names(es))
            && (forall m :: 0 <= m < |es| ==> es[m].1 == PaidBy(invs, es[m].0))
  {
    var paid := Filter(invs, IsPaid);
    var es := ClientTotals(invs);
    TallySpec(paid, Client, InvoiceAmount, "");
    DedupSpec(Keys(paid, Client));
    forall m | 0 <= m < |es|
      ensures es[m].1 == PaidBy(invs, es[m].0)
    {
      DistinctValue(es, m);
      TallySpec(paid, Client, InvoiceAmount, es[m].0);
    }
  }

  /** The ranking is ordered by total, largest first, and each entry holds
      what its client paid. */
  lemma TopClientsOrdered(invs: seq<Invoice>)
    ensures var r := TopClients(invs);
            && (forall i, j :: 0 <= i < j < |r| ==> r[i].1 >= r[j].1)
            && (forall i :: 0 <= i < |r| ==> r[i].1 == PaidBy(invs, r[i].0))
  {
    var es := ClientTotals(invs);
    var s := SortBy(es, LargerFirst);
    var r := TopClients(invs);
    TopClientsFrom(invs);
    forall i | 0 <= i < |r|
      ensures r[i].1 == PaidBy(invs, r[i].0)
    {
      assert r[i] == s[i] && s[i] in multiset(es);
    }
  }

  /** The ranking shows the five largest payers: it is drawn from the
      client map, and no client left out paid more than any client shown. */
  lemma TopClientsLargest(invs: seq<Invoice>)
    ensures var r := TopClients(invs);
            && multiset(r) <= multiset(ClientTotals(invs))
            && (forall x :: x in multiset(ClientTotals(invs)) - multiset(r) ==>
                  forall i :: 0 <= i < |r| ==> x.1 <= r[i].1)
  {
    var s := SortBy(ClientTotals(invs), LargerFirst);
    var r := TopClients(invs);
    LargerFirstPreorder();
    TopClientsFrom(invs);
    PrefixOfSorted(s, |r|, LargerFirst);
  }

  /** No client appears twice in the ranking. */
  lemma TopClientsDistinct(invs: seq<Invoice>)
    ensures var r := TopClients(invs);
            forall i, j :: 0 <= i < j < |r| ==> r[i].0 != r[j].0
  {
    var es := ClientTotals(invs);
    var s := SortBy(es, LargerFirst);
    var r := TopClients(invs);
    TopClientsFrom(invs);
    forall i, j | 0 <= i < j < |r|
      ensures r[i].0 != r[j].0
    {
      assert r[i] == s[i] && r[j] == s[j];
      SortedEntriesDistinct(es, s, i, j);
    }
  }

  /** The first client of the ranking paid at least as much as any client of
      a paid invoice. */
  lemma TopClientsFirstIsMax(invs: seq<Invoice>)
    ensures var r := TopClients(invs);
            r != [] ==> forall c :: c in Names(ClientTotals(invs)) ==> PaidBy(invs, c) <= r[0].1
  {
    var es := ClientTotals(invs);
    var s := SortBy(es, LargerFirst);
    var r := TopClients(invs);
    TopClientsFrom(invs);
    if r != [] {
      forall c | c in Names(es)
        ensures PaidBy(invs, c) <= r[0].1
      {
        var m :| 0 <= m < |es| && Names(es)[m] == c;
        LargerFirstPreorder();
        TopBeatsEntry(es, s, m);
      }
    }
  }

  lemma TopBeatsEntry(es: Entries, s: Entries, m: nat)
    requires m < |es| && multiset(s) == multiset(es) && SortedBy(s, LargerFirst)
    ensures |s| > 0 && s[0].1 >= es[m].1
  {
    assert es[m] in multiset(s);
    var q :| 0 <= q < |s| && s[q] == es[m];
    if q > 0 {
      assert LargerFirst(s[0], s[q]);
    }
  }

  /** The ranking is empty exactly when no invoice is paid. */
  lemma TopClientsEmpty(invs: seq<Invoice>)
    ensures TopClients(invs) == [] <==> Filter(invs, IsPaid) == []
  {
    var paid := Filter(invs, IsPaid);
    var es := ClientTotals(invs);
    TallySpec(paid, Client, InvoiceAmount, "");
    DedupSpec(Keys(paid, Client));
    if paid != [] {
      assert Keys(paid, Client)[0] in Dedup(Keys(paid, Client));
    }
  }

  /** A rearrangement of entries with distinct names has distinct names. */
  lemma SortedEntriesDistinct(es: Entries, s: Entries, i: nat, j: nat)
    requires Distinct(Names(es)) && multiset(s) == multiset(es) && i < j < |s|
    ensures s[i].0 != s[j].0
  {
    if s[i].0 == s[j].0 {
      assert s[i] in multiset(es) && s[j] in multiset(es);
      var a :| 0 <= a < |es| && es[a] == s[i];
      var b :| 0 <= b < |es| && es[b] == s[j];
      assert a == b;
      assert s == s[..j] + [s[j]] + s[j + 1..];
      assert s[i] in s[..j];
      assert multiset(s)[s[i]] >= 2;
      OnceEach(es, a);
      assert false;
    }
  }

  /** With distinct names, every entry occurs once. */
  lemma {:induction false} OnceEach(es: Entries, a: nat)
    requires Distinct(Names(es)) && a < |es|
    ensures multiset(es)[es[a]] == 1
  {
    assert es == [es[0]] + es[1..];
    assert Distinct(Names(es[1..])) by {
      forall i, j | 0 <= i < j < |es| - 1
        ensures Names(es[1..])[i] != Names(es[1..])[j]
      {
        assert Names(es)[i + 1] != Names(es)[j + 1];
      }
    }
    if a == 0 {
      forall k | 0 <= k < |es| - 1
        ensures es[1..][k] != es[0]
      {
        NameDiffers(es, 0, k + 1);
      }
    } else {
      OnceEach(es[1..], a - 1);
      assert Names(es)[0] != Names(es)[a];
    }
  }

  lemma NameDiffers(es: Entries, i: nat, j: nat)
    requires Distinct(Names(es)) && i < j < |es|
    ensures es[i].0 != es[j].0
  {
  }

  /** `Math.round(revenue / max * 100)`; 0 / 0 is NaN. */
  function BarWidth(revenue: nat, max: nat): Option<nat> {
    if max == 0 then None else Some(RoundDiv(100 * revenue, max))
  }

  /** With max the largest total, every bar is at most 100 wide and the bar
      of the largest total is exactly 100. */
  lemma BarWidthSpec(revenue: nat, max: nat)
    requires revenue <= max && max > 0
    ensures BarWidth(revenue, max).Some? && BarWidth(revenue, max).value <= 100
    ensures revenue == max ==> BarWidth(revenue, max) == Some(100)
  {
    var w := RoundDiv(100 * revenue, max);
    assert w * (2 * max) < 101 * (2 * max);
    CancelLt(w, 101, 2 * max);
    if revenue == max {
      assert 99 * (2 * max) < w * (2 * max);
      CancelLt(99, w, 2 * max);
    }
  }

  lemma CancelLt(a: int, b: int, c: int)
    requires c > 0 && a * c < b * c
    ensures a < b
  {
  }
}
