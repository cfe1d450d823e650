/**
 * The entities shared by the document controller, the `/home` route and the
 * charts page: documents, users, the capability names the permission maps
 * hand to the front end, and the (year, month) pairs that dates are reduced to.
 */
module Model {

  datatype Option<+T> = None | Some(value: T)

  /** A month as JavaScript's `Date.getMonth()` returns it: 0 is January, 11 is December. */
  type Month = m: int | 0 <= m < 12

  /** A calendar date reduced to the two parts the charts page reads from it. */
  datatype YearMonth = YearMonth(year: int, month: Month)

  /**
   * A row of the `documents` table. `status` is 1 for an active document and
   * 0 for a withdrawn one; `priority` is 1 (low), 2 (medium) or 3 (high) when
   * it went through validation, but the charts page accepts any integer.
   * `dateApproved` is `None` when the column is null (or holds no usable date).
   */
  datatype Document = Document(
    id: int,
    name: string,
    description: string,
    priority: int,
    dateApproved: Option<YearMonth>,
    dateSubmitted: string,
    url: string,
    status: int,
    userId: int)

  /** The authenticated user, reduced to what the permission logic reads. */
  datatype User = User(id: int, permissions: int)

  /** The capability names that the permission maps send to the front end. */
  datatype Capability = CanSee | CanCreate | CanEdit | CanDelete | CanApprove
  {
    /** The name as it appears in the page properties. */
    function Name(): string
    {
      match this
      case CanSee => "can_see"
      case CanCreate => "can_create"
      case CanEdit => "can_edit"
      case CanDelete => "can_delete"
      case CanApprove => "can_approve"
    }
  }

  /** The names of a capability list, in order: the string array the page receives. */
  function Names(caps: seq<Capability>): seq<string>
  {
    seq(|caps|, i requires 0 <= i < |caps| => caps[i].Name())
  }

  /** No capability is listed twice. */
  predicate Distinct<T(==)>(s: seq<T>)
  {
    forall i, j :: 0 <= i < j < |s| ==> s[i] != s[j]
  }

  /** `a` is `b` with some elements dropped and the rest kept in their order. */
  predicate IsSubsequence<T(==)>(a: seq<T>, b: seq<T>)
    decreases |b|
  {
    if a == [] then true
    else if b == [] then false
    else (a[0] == b[0] && IsSubsequence(a[1..], b[1..])) || IsSubsequence(a, b[1..])
  }

  /** Every sequence is a subsequence of itself. */
  lemma {:induction false} SubsequenceReflexive<T>(s: seq<T>)
    ensures IsSubsequence(s, s)
  {
    if s != [] {
      SubsequenceReflexive(s[1..]);
    }
  }
}
