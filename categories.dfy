/**
 * The per-category expense breakdown fed to the pie chart: one slice per
 * category of the expense entries, in the order each category first
 * appears, holding the sum of that category's amounts.
 */
module Categories {
  import opened Records
  import opened Totals

  /** One `{ name, value }` element of the breakdown. */
  datatype Slice = Slice(name: string, value: int)

  /** The predicate `t => t.category === name`, one closure per name. */
  function HasCategory(name: string): Transaction -> bool
  {
    (t: Transaction) => t.category == name
  }

  /** The sum of the amounts of the entries of `es` in category `name`. */
  function CategoryTotal(es: seq<Transaction>, name: string): int
  {
    Total(Filter(es, HasCategory(name)))
  }

  /** The distinct categories of `es`, each where it first appears. */
  function Categories(es: seq<Transaction>): seq<string>
  {
    if es == [] then []
    else
      var p, c := Categories(es[..|es| - 1]), es[|es| - 1].category;
      if c in p then p else p + [c]
  }

  /** One slice per name, holding that name's total over `es`. */
  function Tabulate(names: seq<string>, es: seq<Transaction>): seq<Slice>
  {
    seq(|names|, k requires 0 <= k < |names| => Slice(names[k], CategoryTotal(es, names[k])))
  }

  /** The breakdown of a list of expense entries. */
  function Group(es: seq<Transaction>): seq<Slice>
  {
    Tabulate(Categories(es), es)
  }

  /** The breakdown the component computes: the expense entries grouped. */
  function CategoryBreakdown(ts: seq<Transaction>): seq<Slice>
  {
    Group(OfKind(ts, ExpenseKind))
  }

  /** The sum of the slices' values. */
  function SumValues(slices: seq<Slice>): int
  {
    if slices == [] then 0 else SumValues(slices[..|slices| - 1]) + slices[|slices| - 1].value
  }

  /** An independent reference: the amounts of the entries of `ts` of type
      `kind` and category `name`, summed in one pass. */
  function SumWhere(ts: seq<Transaction>, kind: string, name: string): int
  {
    if ts == [] then 0
    else
      var t := ts[|ts| - 1];
      SumWhere(ts[..|ts| - 1], kind, name) + (if t.kind == kind && t.category == name then t.amount else 0)
  }

  ghost predicate Distinct(names: seq<string>)
  {
    forall i, j :: 0 <= i < j < |names| ==> names[i] != names[j]
  }

  /** A category is listed exactly when some entry carries it. */
  lemma {:induction false} CategoriesMembers(es: seq<Transaction>, name: string)
    ensures name in Categories(es) <==> exists t :: t in es && t.category == name
  {
    if es != [] {
      var p, t := es[..|es| - 1], es[|es| - 1];
      assert es == p + [t];
      CategoriesMembers(p, name);
      if name in Categories(es) && name !in Categories(p) {
        assert t in es;
      }
      if exists u :: u in es && u.category == name {
        var u :| u in es && u.category == name;
        if u != t {
          assert u in p;
        }
      }
    }
  }

  /** No category is listed twice. */
  lemma {:induction false} CategoriesDistinct(es: seq<Transaction>)
    ensures Distinct(Categories(es))
  {
    if es != [] {
      CategoriesDistinct(es[..|es| - 1]);
    }
  }

  /** Categories are listed in the order of their first appearance: every
      entry of a later-listed category comes after some entry of each
      earlier-listed category. */
  lemma {:induction false} CategoriesInFirstOccurrenceOrder(es: seq<Transaction>, i: nat, j: nat, n: nat)
    requires i < j < |Categories(es)|
    requires n < |es| && es[n].category == Categories(es)[j]
    ensures exists m :: 0 <= m < n && es[m].category == Categories(es)[i]
  {
    var p, t := es[..|es| - 1], es[|es| - 1];
    var names, before := Categories(es), Categories(p);
    assert es == p + [t];
    assert |before| <= |names| && names[..|before|] == before;
    if n < |p| {
      assert p[n] in p;
      CategoriesMembers(p, p[n].category);
      CategoriesInFirstOccurrenceOrder(p, i, j, n);
      var m :| 0 <= m < n && p[m].category == before[i];
      assert es[m] == p[m];
    } else {
      assert i < |before|;
      assert before[i] in before;
      CategoriesMembers(p, before[i]);
      var u :| u in p && u.category == before[i];
      var m :| 0 <= m < |p| && p[m] == u;
      assert es[m] == p[m];
    }
  }

  /** Adding one entry to a list adds its amount to its own category's
      total and to no other. */
  lemma CategoryTotalStep(p: seq<Transaction>, t: Transaction, name: string)
    ensures CategoryTotal(p + [t], name) == CategoryTotal(p, name) + (if t.category == name then t.amount else 0)
  {
    FilteredTotalStep(p, t, HasCategory(name));
  }

  /** A category that no entry carries totals zero. */
  lemma CategoryTotalAbsent(es: seq<Transaction>, name: string)
    requires forall t :: t in es ==> t.category != name
    ensures CategoryTotal(es, name) == 0
  {
    FilterKeepsNone(es, HasCategory(name));
  }

  /** The sum over distinct names moves by the new entry's amount when its
      category is one of the names, and stays put otherwise. */
  lemma {:induction false} SumTabulateStep(names: seq<string>, p: seq<Transaction>, t: Transaction)
    requires Distinct(names)
    ensures SumValues(Tabulate(names, p + [t])) ==
      SumValues(Tabulate(names, p)) + (if t.category in names then t.amount else 0)
  {
    if names != [] {
      var front, last := names[..|names| - 1], names[|names| - 1];
      assert Tabulate(names, p + [t])[..|names| - 1] == Tabulate(front, p + [t]);
      assert Tabulate(names, p)[..|names| - 1] == Tabulate(front, p);
      SumTabulateStep(front, p, t);
      CategoryTotalStep(p, t, last);
      assert t.category in names <==> t.category in front || t.category == last;
      if t.category == last {
        assert t.category !in front;
      }
    }
  }

  /** The values of a grouping add up to the total of the grouped entries. */
  lemma {:induction false} GroupSumsToTotal(es: seq<Transaction>)
    ensures SumValues(Group(es)) == Total(es)
  {
    if es != [] {
      var p, t := es[..|es| - 1], es[|es| - 1];
      var before := Categories(p);
      assert es == p + [t];
      GroupSumsToTotal(p);
      CategoriesDistinct(p);
      SumTabulateStep(before, p, t);
      if t.category !in before {
        var names := before + [t.category];
        assert Tabulate(names, es)[..|before|] == Tabulate(before, es);
        CategoriesMembers(p, t.category);
        CategoryTotalAbsent(p, t.category);
        CategoryTotalStep(p, t, t.category);
      }
    }
  }

  /** Grouping one more entry whose category already has slice `j` adds its
      amount to that slice, in place. */
  lemma GroupStepExisting(p: seq<Transaction>, t: Transaction, j: nat)
    requires j < |Group(p)| && Group(p)[j].name == t.category
    ensures Group(p + [t]) == Group(p)[j := Slice(t.category, Group(p)[j].value + t.amount)]
  {
    var names := Categories(p);
    assert (p + [t])[..|p|] == p;
    assert Categories(p + [t]) == names;
    CategoriesDistinct(p);
    forall k | 0 <= k < |names|
      ensures CategoryTotal(p + [t], names[k]) == CategoryTotal(p, names[k]) + (if k == j then t.amount else 0)
    {
      CategoryTotalStep(p, t, names[k]);
    }
  }

  /** Grouping one more entry whose category has no slice yet appends a
      slice holding its amount. */
  lemma GroupStepNew(p: seq<Transaction>, t: Transaction)
    requires forall k :: 0 <= k < |Group(p)| ==> Group(p)[k].name != t.category
    ensures Group(p + [t]) == Group(p) + [Slice(t.category, t.amount)]
  {
    var names, es := Categories(p), p + [t];
    assert forall k :: 0 <= k < |names| ==> Group(p)[k].name == names[k];
    assert t.category !in names;
    assert es[..|es| - 1] == p;
    assert Categories(es) == names + [t.category];
    TabulateUnchanged(names, p, t);
    TabulateSnoc(names, t.category, es);
    CategoriesMembers(p, t.category);
    CategoryTotalAbsent(p, t.category);
    CategoryTotalStep(p, t, t.category);
  }

  /** Tabulating one more name appends that name's slice. */
  lemma TabulateSnoc(names: seq<string>, name: string, es: seq<Transaction>)
    ensures Tabulate(names + [name], es) == Tabulate(names, es) + [Slice(name, CategoryTotal(es, name))]
  {
    var longer, grown := Tabulate(names + [name], es), Tabulate(names, es) + [Slice(name, CategoryTotal(es, name))];
    assert |longer| == |grown|;
    forall k | 0 <= k < |longer|
      ensures longer[k] == grown[k]
    {
      if k < |names| {
        assert (names + [name])[k] == names[k];
      }
    }
  }

  /** An entry whose category is none of the names changes none of their slices. */
  lemma TabulateUnchanged(names: seq<string>, p: seq<Transaction>, t: Transaction)
    requires t.category !in names
    ensures Tabulate(names, p + [t]) == Tabulate(names, p)
  {
    forall k | 0 <= k < |names|
      ensures CategoryTotal(p + [t], names[k]) == CategoryTotal(p, names[k])
    {
      CategoryTotalStep(p, t, names[k]);
    }
  }

  /** `acc.find(item => item.name === name)`: the index of the first slice
      named `name`, or None when there is none. */
  method FindSlice(acc: seq<Slice>, name: string) returns (found: Option<nat>)
    ensures found.Some? ==> found.value < |acc| && acc[found.value].name == name
    ensures found.Some? ==> forall k :: 0 <= k < found.value ==> acc[k].name != name
    ensures found.None? <==> forall k :: 0 <= k < |acc| ==> acc[k].name != name
  {
    var k := 0;
    while k < |acc|
      invariant 0 <= k <= |acc|
      invariant forall i :: 0 <= i < k ==> acc[i].name != name
    {
      if acc[k].name == name {
        return Some(k);
      }
      k := k + 1;
    }
    return None;
  }

  /** The reducer's callback: add the expense `t` to the slice of its
      category (`existing.value += t.amount`), or push a new slice when the
      category has none yet. `seen` is the list already folded into `acc`. */
  method AddExpense(acc: seq<Slice>, t: Transaction, ghost seen: seq<Transaction>) returns (next: seq<Slice>)
    requires acc == Group(seen)
    ensures next == Group(seen + [t])
  {
    var existing := FindSlice(acc, t.category);
    if existing.Some? {
      var j := existing.value;
      GroupStepExisting(seen, t, j);
      next := acc[j := Slice(acc[j].name, acc[j].value + t.amount)];
    } else {
      GroupStepNew(seen, t);
      next := acc + [Slice(t.category, t.amount)];
    }
  }

  /** `categoryData`: filter the expense entries, then fold them into the
      breakdown with AddExpense, starting from the empty list. */
  method CategoryData(ts: seq<Transaction>) returns (acc: seq<Slice>)
    ensures acc == CategoryBreakdown(ts)
  {
    var es := Filter(ts, IsKind(ExpenseKind));
    acc := [];
    var i := 0;
    while i < |es|
      invariant 0 <= i <= |es|
      invariant acc == Group(es[..i])
    {
      assert es[..i + 1] == es[..i] + [es[i]];
      acc := AddExpense(acc, es[i], es[..i]);
      i := i + 1;
    }
    assert es[..i] == es;
  }

  /** The breakdown has no duplicate name. */
  lemma BreakdownNamesDistinct(ts: seq<Transaction>)
    ensures forall i, j :: 0 <= i < j < |CategoryBreakdown(ts)| ==>
      CategoryBreakdown(ts)[i].name != CategoryBreakdown(ts)[j].name
  {
    CategoriesDistinct(OfKind(ts, ExpenseKind));
  }

  /** A name appears in the breakdown exactly when it is the category of
      some expense entry. */
  lemma BreakdownNamesAreExpenseCategories(ts: seq<Transaction>, name: string)
    ensures (exists k :: 0 <= k < |CategoryBreakdown(ts)| && CategoryBreakdown(ts)[k].name == name)
        <==> (exists t :: t in ts && t.kind == ExpenseKind && t.category == name)
  {
    var es := OfKind(ts, ExpenseKind);
    var names := Categories(es);
    CategoriesMembers(es, name);
    if name in names {
      var k :| 0 <= k < |names| && names[k] == name;
      assert CategoryBreakdown(ts)[k].name == name;
    }
  }

  /** The entries of one category of an expense list, summed, equal the
      one-pass sum over the whole list of the entries of type "expense" and
      that category. */
  lemma {:induction false} CategoryTotalOfKind(ts: seq<Transaction>, kind: string, name: string)
    ensures CategoryTotal(OfKind(ts, kind), name) == SumWhere(ts, kind, name)
  {
    if ts != [] {
      var p, t := ts[..|ts| - 1], ts[|ts| - 1];
      assert ts == p + [t];
      CategoryTotalOfKind(p, kind, name);
      OfKindStep(p, t, kind);
      assert SumWhere(ts, kind, name) ==
        SumWhere(p, kind, name) + (if t.kind == kind && t.category == name then t.amount else 0);
      if t.kind == kind {
        CategoryTotalStep(OfKind(p, kind), t, name);
      } else {
        assert OfKind(ts, kind) == OfKind(p, kind) + [] == OfKind(p, kind);
      }
    }
  }

  /** Each slice's value is the sum of the amounts of the expense entries
      in its category. */
  lemma BreakdownValues(ts: seq<Transaction>, k: nat)
    requires k < |CategoryBreakdown(ts)|
    ensures CategoryBreakdown(ts)[k].value == SumWhere(ts, ExpenseKind, CategoryBreakdown(ts)[k].name)
  {
    CategoryTotalOfKind(ts, ExpenseKind, CategoryBreakdown(ts)[k].name);
  }

  /** The slices' values together add up to the expense total. */
  lemma BreakdownSumsToExpenses(ts: seq<Transaction>)
    ensures SumValues(CategoryBreakdown(ts)) == Expenses(ts)
  {
    GroupSumsToTotal(OfKind(ts, ExpenseKind));
  }

  /** On a list of expense entries only, the breakdown groups the list itself. */
  lemma BreakdownOfExpensesOnly(ts: seq<Transaction>)
    requires forall i :: 0 <= i < |ts| ==> ts[i].kind == ExpenseKind
    ensures CategoryBreakdown(ts) == Group(ts)
  {
    FilterKeepsAll(ts, IsKind(ExpenseKind));
  }

  /** Expenses Food 10, Transport 5, Food 3, in that order, give
      [Food 13, Transport 5]. */
  lemma BreakdownExample(a: Transaction, b: Transaction, c: Transaction)
    requires a.kind == ExpenseKind && a.category == "Food" && a.amount == 10
    requires b.kind == ExpenseKind && b.category == "Transport" && b.amount == 5
    requires c.kind == ExpenseKind && c.category == "Food" && c.amount == 3
    ensures CategoryBreakdown([a, b, c]) == [Slice("Food", 13), Slice("Transport", 5)]
  {
    assert |a.category| != |b.category|;
    BreakdownOfExpensesOnly([a, b, c]);
    assert [a] == [] + [a];
    GroupStepNew([], a);
    assert Group([a]) == [Slice(a.category, 10)];
    assert [a, b] == [a] + [b];
    GroupStepNew([a], b);
    assert Group([a, b]) == [Slice(a.category, 10), Slice(b.category, 5)];
    assert [a, b, c] == [a, b] + [c];
    GroupStepExisting([a, b], c, 0);
  }
}
