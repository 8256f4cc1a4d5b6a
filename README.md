# Budget tracker core, modelled in Dafny

The budget tracker is a single React component. It keeps a list of income and
expense transactions in sync with a REST collection, and it derives three
views from that list on every render:

- the income total, the expense total and the balance;
- a per-category expense breakdown for the pie chart.

This project models the logic behind those views and the three handlers that
change the list:

- **Records** (`records.dfy`): the transaction record, the form draft, the
  outcome of a remote call, and `Filter`. `Filter` models `Array.prototype.filter`,
  which every part of the component uses.
- **Totals** (`totals.dfy`): `income`, `expenses` and `balance`, as filter and
  fold functions over the list.
- **Categories** (`categories.dfy`): the `categoryData` reducer. It is written
  as an imperative fold: `CategoryData` loops over the expense entries and
  calls `AddExpense`, the reducer's callback. `AddExpense` uses `FindSlice`
  (`acc.find`), then either updates the found slice (`existing.value +=`) or
  appends a new one (`acc.push`). Both methods are proved against the
  specification function `CategoryBreakdown`. That function puts the distinct
  expense categories in first-occurrence order and pairs each with its summed
  amount. The properties the chart relies on are lemmas about
  `CategoryBreakdown`.
- **TransactionStore** (`store.dfy`): the class `Store`, with the fields
  `transactions`, `formData` and `loading`. Its methods are the handlers
  `fetchTransactions` (split at its `await` into `BeginFetch` and
  `CompleteFetch`), `handleSubmit` and `handleDelete`. Each remote call is
  replaced by its outcome, passed in as a parameter:
  - `Response.Ok(value)` means the request resolved and its JSON body decoded
    to `value`;
  - `Failed` means the request or the decoding threw.

  `Without` models the delete filter. Its lemmas show that delete keeps the
  order of the remaining entries and removes exactly one entry when ids are
  unique.

Amounts are integers counted in cents. Type and category are strings compared
for equality, as `===` compares them in the source. So the model can hold a
record whose type is neither "income" nor "expense", and such a record counts
toward neither total.

The code has no validation beyond the empty-field check. A design reading
might expect `handleSubmit` to require a positive numeric amount. The code
only tests that the description and the amount text are non-empty, and the
model follows the code. In the same way, "succeeded" follows the code: `fetch`
resolves on an HTTP error status, and the code never inspects `res.ok`. So
an error response whose body is valid JSON takes the success path. It is
prepended on submit, and it removes the entry on delete. The model's `Ok` and
`succeeded` inputs cover those cases too.

## Model

| member | source | states |
|---|---|---|
| Records.Filter | src/App.jsx:87 | the result holds exactly the elements of the input that the predicate accepts, and is no longer than the input |
| Records.FilterAppend | src/App.jsx:87 | filtering a concatenation is the concatenation of the filtered parts, so the survivors keep their relative order |
| Records.FilterKeepsAll | src/App.jsx:87 | a filter that accepts every element returns the list unchanged |
| Totals.TotalsOfEmpty | src/App.jsx:99-101 | on the empty list income, expenses and balance are all 0 |
| Totals.TotalsAppend | src/App.jsx:99-100 | income and expense totals are additive over concatenation |
| Totals.TotalsOfOne | src/App.jsx:99-100 | a single entry contributes its amount to income exactly when its type is "income", to expenses exactly when its type is "expense", and otherwise to neither |
| Totals.TotalsPartition | src/App.jsx:99-100 | the sum of all amounts splits exactly into income, expenses and the entries of any other type, so no amount is counted twice |
| Totals.BalanceAfterPrepend | src/App.jsx:99-101 | prepending a record raises the balance by its amount if it is income, lowers it by its amount if it is an expense, and leaves it unchanged otherwise |
| Totals.OfKindStep | src/App.jsx:99-100 | filtering by type after appending an entry keeps that entry exactly when it has the type |
| Totals.SeedTotals | src/App.jsx:14-17 | the seed list (income 1200.00, expense 85.50) gives income 1200.00, expenses 85.50 and balance 1114.50 |
| Categories.FindSlice | src/App.jsx:106 | returns the index of the first slice named like the category, and None exactly when no slice has that name |
| Categories.AddExpense | src/App.jsx:105-112 | folding one more expense into the breakdown of the entries seen so far gives the breakdown of those entries followed by it |
| Categories.CategoryData | src/App.jsx:103-113 | the reducer over the expense entries returns exactly CategoryBreakdown of the transaction list |
| Categories.GroupStepExisting | src/App.jsx:107-108 | an entry whose category already has a slice adds its amount to that slice and changes nothing else |
| Categories.GroupStepNew | src/App.jsx:109-110 | an entry whose category has no slice yet appends a slice holding its amount |
| Categories.CategoriesMembers | src/App.jsx:103-113 | a category is listed if and only if some entry carries it |
| Categories.CategoriesDistinct | src/App.jsx:106-110 | no category is listed twice |
| Categories.CategoriesInFirstOccurrenceOrder | src/App.jsx:103-113 | categories appear in first-occurrence order: every entry of a later-listed category is preceded by an entry of each earlier-listed category |
| Categories.CategoryTotalStep | src/App.jsx:108 | appending an entry adds its amount to its own category's sum and to no other |
| Categories.CategoryTotalAbsent | src/App.jsx:103-113 | a category no entry carries sums to 0 |
| Categories.GroupSumsToTotal | src/App.jsx:103-113 | the values of a grouping add up to the sum of all grouped amounts |
| Categories.BreakdownNamesDistinct | src/App.jsx:103-113 | the breakdown has no duplicate name |
| Categories.BreakdownNamesAreExpenseCategories | src/App.jsx:103-113 | a name is in the breakdown if and only if it is the category of some entry whose type is "expense" |
| Categories.CategoryTotalOfKind | src/App.jsx:103-108 | summing one category of the entries of one type equals a one-pass sum over the whole list of the entries with that type and category |
| Categories.BreakdownValues | src/App.jsx:103-113 | each slice's value is the sum of the amounts of the expense entries in its category |
| Categories.BreakdownSumsToExpenses | src/App.jsx:100-113 | the slice values together add up to the expense total |
| Categories.BreakdownOfExpensesOnly | src/App.jsx:104 | on a list of expense entries only, the type filter drops nothing before grouping |
| Categories.BreakdownExample | src/App.jsx:103-113 | expenses Food 10, Transport 5, Food 3 give [Food 13, Transport 5] |
| TransactionStore.Without | src/App.jsx:87 | the result holds exactly the entries of the list whose id differs from the deleted id |
| TransactionStore.WithoutAppend | src/App.jsx:87 | removing by id commutes with concatenation, so the surviving entries keep their order |
| TransactionStore.WithoutAbsentId | src/App.jsx:87 | removing an id that no entry carries leaves the list unchanged |
| TransactionStore.WithoutUniqueId | src/App.jsx:87 | when ids are unique, deleting an entry's id removes exactly that entry and keeps the entries before and after it in place |
| TransactionStore.WithoutIdempotent | src/App.jsx:87 | deleting the same id twice is the same as deleting it once |
| TransactionStore.TotalsAfterDelete | src/App.jsx:87-100 | deleting the only entry with a given id takes its amount out of the one total it counted toward |
| TransactionStore.Store.constructor | src/App.jsx:22-29 | on mount the list is empty, loading is true and the form holds its defaults |
| TransactionStore.Store.BeginFetch | src/App.jsx:33 | loading is raised and nothing else changes |
| TransactionStore.Store.CompleteFetch | src/App.jsx:41-49 | on success the fetched list replaces the current one wholesale; on failure the list is kept; loading is false on both paths; the form is unchanged |
| TransactionStore.Store.Submit | src/App.jsx:52-79 | with an empty description or amount nothing is sent and nothing changes. Otherwise the request carries the form's fields, the parsed amount and the timestamp. On success the saved record is put at the front of the list and the form is reset to description "", amount "", type "expense", category "Food". On failure both are unchanged. Loading is never touched |
| TransactionStore.Store.Delete | src/App.jsx:81-92 | on success the list becomes the previous list without the entries carrying the id; on failure it is unchanged; form and loading are untouched |

## Left out

- JSX rendering, styling, the icon components, the pie chart and its colour
  indexing (src/App.jsx:115-309). These are presentation over external
  libraries. The form's `onChange` handlers are also left out; they copy
  input text into `formData` field by field.
- `fetch`, `res.json()` and the endpoint URL. Only their outcome is
  modelled, as the `response`/`succeeded` parameters.
- The `USE_MOCK_DATA` switch and the `setTimeout` latency. The mock paths
  apply the same state changes as the network paths and are covered by the
  success case. The mock seed list appears only in `SeedTotals`.
- `Date.now()`, `new Date().toISOString()` and `toLocaleDateString`: ids and
  dates are opaque strings, and the timestamp is the `now` parameter.
- `parseFloat` and `toFixed`: amounts are whole cents. The parsed amount is
  the `parsedAmount` parameter. NaN, IEEE rounding and display formatting are
  not modelled.
- `e.preventDefault()`: a browser event call with no effect on the state.
- The `useEffect` that fetches on mount, React's batching of state updates,
  and the interleaving of concurrent fetches or submits. Each handler is
  modelled as one step applied to the current state.
- Categories.AddExpense: `acc.find` returns the slice object itself, and the
  source updates it through that alias. The model replaces the slice at the
  found index in a sequence, so object identity and aliasing are not
  modelled.
- Error logging to the console: it has no effect on the state.
