/**
 * The summary cards: income and expense totals and the balance, recomputed
 * from the whole transaction list on every render.
 */
module Totals {
  import opened Records

  /** `reduce((acc, t) => acc + t.amount, 0)`: a left fold of the amounts. */
  function Total(ts: seq<Transaction>): int
  {
    if ts == [] then 0 else Total(ts[..|ts| - 1]) + ts[|ts| - 1].amount
  }

  /** The sum of a concatenation is the sum of the sums. */
  lemma {:induction false} TotalAppend(a: seq<Transaction>, b: seq<Transaction>)
    ensures Total(a + b) == Total(a) + Total(b)
  {
    if b == [] {
      assert a + b == a;
    } else {
      var b' := b[..|b| - 1];
      assert (a + b)[..|a + b| - 1] == a + b';
      assert (a + b)[|a + b| - 1] == b[|b| - 1];
      TotalAppend(a, b');
    }
  }

  /** The predicate `t => t.type === kind`, one closure per kind. */
  function IsKind(kind: string): Transaction -> bool
  {
    (t: Transaction) => t.kind == kind
  }

  /** The predicate for entries counted neither as income nor as expense. */
  function IsUnclassified(): Transaction -> bool
  {
    (t: Transaction) => t.kind != IncomeKind && t.kind != ExpenseKind
  }

  /** `filter(t => t.type === kind)`. */
  function OfKind(ts: seq<Transaction>, kind: string): seq<Transaction>
  {
    Filter(ts, IsKind(kind))
  }

  function Income(ts: seq<Transaction>): int
  {
    Total(OfKind(ts, IncomeKind))
  }

  function Expenses(ts: seq<Transaction>): int
  {
    Total(OfKind(ts, ExpenseKind))
  }

  function Balance(ts: seq<Transaction>): int
  {
    Income(ts) - Expenses(ts)
  }

  /** Appending one entry to a filtered sum adds its amount exactly when the
      filter keeps it. */
  lemma FilteredTotalStep(p: seq<Transaction>, t: Transaction, keep: Transaction -> bool)
    ensures Total(Filter(p + [t], keep)) == Total(Filter(p, keep)) + (if keep(t) then t.amount else 0)
  {
    FilterAppend(p, [t], keep);
    TotalAppend(Filter(p, keep), Filter([t], keep));
    assert Filter([t], keep) == if keep(t) then [t] else [];
  }

  /** Filtering by type after appending one entry keeps it exactly when it
      has that type. */
  lemma OfKindStep(p: seq<Transaction>, t: Transaction, kind: string)
    ensures OfKind(p + [t], kind) == OfKind(p, kind) + (if t.kind == kind then [t] else [])
  {
    FilterAppend(p, [t], IsKind(kind));
    assert Filter([t], IsKind(kind)) == if t.kind == kind then [t] else [];
  }

  /** Both totals are zero on the empty list, and so is the balance. */
  lemma TotalsOfEmpty()
    ensures Income([]) == 0 && Expenses([]) == 0 && Balance([]) == 0
  {
  }

  /** The totals are additive over concatenation, and a single entry adds
      its amount to the income total when its type is "income", to the
      expense total when its type is "expense", and to neither otherwise.
      Together with TotalsOfEmpty this determines both totals. */
  lemma TotalsAppend(a: seq<Transaction>, b: seq<Transaction>)
    ensures Income(a + b) == Income(a) + Income(b)
    ensures Expenses(a + b) == Expenses(a) + Expenses(b)
  {
    FilterAppend(a, b, IsKind(IncomeKind));
    TotalAppend(OfKind(a, IncomeKind), OfKind(b, IncomeKind));
    FilterAppend(a, b, IsKind(ExpenseKind));
    TotalAppend(OfKind(a, ExpenseKind), OfKind(b, ExpenseKind));
  }

  lemma TotalsOfOne(t: Transaction)
    ensures Income([t]) == if t.kind == IncomeKind then t.amount else 0
    ensures Expenses([t]) == if t.kind == ExpenseKind then t.amount else 0
  {
    assert OfKind([t], IncomeKind) == if t.kind == IncomeKind then [t] else [];
    assert OfKind([t], ExpenseKind) == if t.kind == ExpenseKind then [t] else [];
    assert Total([t]) == Total([]) + t.amount;
  }

  /** Prepending a record (what a successful submit does) raises the balance
      by its amount if it is income, lowers it by its amount if it is an
      expense, and leaves it alone otherwise. */
  lemma BalanceAfterPrepend(t: Transaction, ts: seq<Transaction>)
    ensures Balance([t] + ts) ==
      Balance(ts) + (if t.kind == IncomeKind then t.amount else if t.kind == ExpenseKind then -t.amount else 0)
  {
    TotalsAppend([t], ts);
    TotalsOfOne(t);
  }

  /** Every amount is counted at most once: the whole list's sum splits into
      income, expenses and the entries of any other type. */
  lemma {:induction false} TotalsPartition(ts: seq<Transaction>)
    ensures Total(ts) == Income(ts) + Expenses(ts) + Total(Filter(ts, IsUnclassified()))
  {
    if ts != [] {
      var p, t := ts[..|ts| - 1], ts[|ts| - 1];
      assert ts == p + [t];
      TotalsPartition(p);
      FilteredTotalStep(p, t, IsKind(IncomeKind));
      FilteredTotalStep(p, t, IsKind(ExpenseKind));
      FilteredTotalStep(p, t, IsUnclassified());
    }
  }

  /** The seed list (income 1200.00, expense 85.50) gives income 1200.00,
      expenses 85.50 and balance 1114.50, in cents. */
  lemma SeedTotals()
    ensures
      var seed := [Transaction("1", "Freelance Work", 120000, IncomeKind, "Salary", "2023-10-01"),
                   Transaction("2", "Grocery Run", 8550, ExpenseKind, "Food", "2023-10-02")];
      Income(seed) == 120000 && Expenses(seed) == 8550 && Balance(seed) == 111450
  {
    var a := Transaction("1", "Freelance Work", 120000, IncomeKind, "Salary", "2023-10-01");
    var b := Transaction("2", "Grocery Run", 8550, ExpenseKind, "Food", "2023-10-02");
    TotalsAppend([a], [b]);
    TotalsOfOne(a);
    TotalsOfOne(b);
    assert [a] + [b] == [a, b];
  }
}
