/**
 * The values the budget tracker works on: transaction records mirrored from
 * the remote collection, the form draft, and the outcome of a remote call.
 * Also the one list operation every part of the component uses: `filter`.
 */
module Records {

  /** A recorded income or expense event. `id` is the wire field `_id`,
      `kind` the wire field `type`; both, like `date`, are opaque strings
      assigned outside this component. `amount` is in cents. */
  datatype Transaction = Transaction(
    id: string,
    description: string,
    amount: int,
    kind: string,
    category: string,
    date: string)

  /** The body of the create request: the form's fields, the parsed amount
      and the creation time, without an id. */
  datatype NewTransaction = NewTransaction(
    description: string,
    amount: int,
    kind: string,
    category: string,
    date: string)

  /** The form draft; `amount` is the raw text typed by the user. */
  datatype FormData = FormData(description: string, amount: string, kind: string, category: string)

  const IncomeKind: string := "income"
  const ExpenseKind: string := "expense"

  /** The draft the form starts with and returns to after a successful submit. */
  const DefaultForm: FormData := FormData("", "", ExpenseKind, "Food")

  /** What a remote call produced: the decoded body, or a failure of any
      kind (network or decoding), which the component only logs. */
  datatype Response<T> = Ok(value: T) | Failed

  datatype Option<T> = None | Some(value: T)

  /** `Array.prototype.filter`: the elements of `s` that `keep` accepts, in order. */
  function Filter<T(!new)>(s: seq<T>, keep: T -> bool): (r: seq<T>)
    ensures |r| <= |s|
    ensures forall x :: x in r <==> x in s && keep(x)
  {
    if s == [] then []
    else (if keep(s[0]) then [s[0]] else []) + Filter(s[1..], keep)
  }

  /** Filtering a concatenation filters each part: the survivors keep
      their relative order. */
  lemma {:induction false} FilterAppend<T(!new)>(a: seq<T>, b: seq<T>, keep: T -> bool)
    ensures Filter(a + b, keep) == Filter(a, keep) + Filter(b, keep)
  {
    if a == [] {
      assert a + b == b;
    } else {
      assert (a + b)[0] == a[0];
      assert (a + b)[1..] == a[1..] + b;
      FilterAppend(a[1..], b, keep);
    }
  }

  /** When `keep` accepts every element, filtering changes nothing. */
  lemma {:induction false} FilterKeepsAll<T(!new)>(s: seq<T>, keep: T -> bool)
    requires forall i :: 0 <= i < |s| ==> keep(s[i])
    ensures Filter(s, keep) == s
  {
    if s != [] {
      assert keep(s[0]);
      FilterKeepsAll(s[1..], keep);
      assert [s[0]] + s[1..] == s;
    }
  }

  /** When `keep` accepts no element, the filtered list is empty. */
  lemma FilterKeepsNone<T(!new)>(s: seq<T>, keep: T -> bool)
    requires forall x :: x in s ==> !keep(x)
    ensures Filter(s, keep) == []
  {
  }
}
