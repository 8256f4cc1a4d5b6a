/**
 * The component's state — the transaction list, the form draft and the
 * loading flag — and the handlers that change it after a remote call.
 * Each remote call is replaced by its outcome, passed in as a parameter.
 */
module TransactionStore {
  import opened Records
  import opened Totals

  /** The predicate `t => t._id !== id`. */
  function KeepsOtherId(id: string): Transaction -> bool
  {
    (t: Transaction) => t.id != id
  }

  /** `filter(t => t._id !== id)`: the list without the entries carrying `id`. */
  function Without(ts: seq<Transaction>, id: string): (r: seq<Transaction>)
    ensures forall t :: t in r <==> t in ts && t.id != id
  {
    Filter(ts, KeepsOtherId(id))
  }

  /** Removing by id commutes with concatenation, so the entries that stay
      keep their relative order. */
  lemma WithoutAppend(a: seq<Transaction>, b: seq<Transaction>, id: string)
    ensures Without(a + b, id) == Without(a, id) + Without(b, id)
  {
    FilterAppend(a, b, KeepsOtherId(id));
  }

  /** Removing an id no entry carries changes nothing. */
  lemma WithoutAbsentId(ts: seq<Transaction>, id: string)
    requires forall i :: 0 <= i < |ts| ==> ts[i].id != id
    ensures Without(ts, id) == ts
  {
    FilterKeepsAll(ts, KeepsOtherId(id));
  }

  /** With ids unique, removing the id of entry `t` removes exactly that
      entry and leaves the ones before and after it in place. */
  lemma WithoutUniqueId(before: seq<Transaction>, t: Transaction, after: seq<Transaction>)
    requires forall i :: 0 <= i < |before| ==> before[i].id != t.id
    requires forall i :: 0 <= i < |after| ==> after[i].id != t.id
    ensures Without(before + [t] + after, t.id) == before + after
  {
    var id := t.id;
    WithoutAppend(before + [t], after, id);
    WithoutAppend(before, [t], id);
    WithoutAbsentId(before, id);
    WithoutAbsentId(after, id);
    assert Without([t], id) == [] by {
      assert !KeepsOtherId(id)(t);
    }
    assert Without(before + [t], id) == before;
  }

  /** Removing the same id twice is the same as removing it once. */
  lemma WithoutIdempotent(ts: seq<Transaction>, id: string)
    ensures Without(Without(ts, id), id) == Without(ts, id)
  {
    var once := Without(ts, id);
    assert forall i :: 0 <= i < |once| ==> once[i] in once;
    WithoutAbsentId(once, id);
  }

  class Store {
    var transactions: seq<Transaction>
    var formData: FormData
    var loading: bool

    /** The state on mount: no transactions, loading, the default form. */
    constructor ()
      ensures transactions == [] && formData == DefaultForm && loading
    {
      transactions := [];
      formData := DefaultForm;
      loading := true;
    }

    /** The first half of `fetchTransactions`, before the request is awaited:
        the loading flag is raised and nothing else changes. */
    method BeginFetch()
      modifies this
      ensures loading
      ensures transactions == old(transactions) && formData == old(formData)
    {
      loading := true;
    }

    /** The second half of `fetchTransactions`, once the request settles:
        a fetched list replaces the current one wholesale; a failure keeps
        it. The loading flag is lowered on both paths. */
    method CompleteFetch(response: Response<seq<Transaction>>)
      modifies this
      ensures !loading
      ensures transactions == (if response.Ok? then response.value else old(transactions))
      ensures formData == old(formData)
    {
      match response {
        case Ok(data) =>
          transactions := data;
          loading := false;
        case Failed =>
          loading := false;
      }
    }

    /** `handleSubmit`. With an empty description or amount it returns at
        once, sends nothing and changes nothing. Otherwise it sends the
        form's fields with the parsed amount and the current time; on
        success the record the server returns goes to the front of the list
        and the form goes back to its defaults, and on failure nothing
        changes. `parsedAmount` is what parsing the amount text gave, `now`
        the clock's timestamp; the loading flag is never touched. */
    method Submit(parsedAmount: int, now: string, response: Response<Transaction>)
      returns (request: Option<NewTransaction>)
      modifies this
      ensures old(formData.description) == "" || old(formData.amount) == "" ==>
        request == None && transactions == old(transactions) && formData == old(formData)
      ensures old(formData.description) != "" && old(formData.amount) != "" ==>
        request == Some(NewTransaction(old(formData.description), parsedAmount,
                                       old(formData.kind), old(formData.category), now)) &&
        transactions == (if response.Ok? then [response.value] + old(transactions) else old(transactions)) &&
        formData == (if response.Ok? then DefaultForm else old(formData))
      ensures loading == old(loading)
    {
      if formData.description == "" || formData.amount == "" {
        return None;
      }
      request := Some(NewTransaction(formData.description, parsedAmount, formData.kind, formData.category, now));
      match response {
        case Ok(saved) =>
          transactions := [saved] + transactions;
          formData := DefaultForm;
        case Failed =>
      }
    }

    /** `handleDelete`: once the server confirms, every entry carrying `id`
        leaves the list; on failure nothing changes. */
    method Delete(id: string, succeeded: bool)
      modifies this
      ensures transactions == (if succeeded then Without(old(transactions), id) else old(transactions))
      ensures formData == old(formData) && loading == old(loading)
    {
      if succeeded {
        transactions := Without(transactions, id);
      }
    }
  }

  /** Deleting the one entry carrying an id takes its amount out of the
      total it was counted in. */
  lemma TotalsAfterDelete(before: seq<Transaction>, t: Transaction, after: seq<Transaction>)
    requires forall i :: 0 <= i < |before| ==> before[i].id != t.id
    requires forall i :: 0 <= i < |after| ==> after[i].id != t.id
    ensures Income(Without(before + [t] + after, t.id)) ==
      Income(before + [t] + after) - (if t.kind == IncomeKind then t.amount else 0)
    ensures Expenses(Without(before + [t] + after, t.id)) ==
      Expenses(before + [t] + after) - (if t.kind == ExpenseKind then t.amount else 0)
  {
    WithoutUniqueId(before, t, after);
    TotalsAppend(before + [t], after);
    TotalsAppend(before, [t]);
    TotalsAppend(before, after);
    TotalsOfOne(t);
  }
}
