/** Linked lists of record or node numbers, as sequences. */
module Lists {

  /** The null pointer. */
  const NULL := -1

  ghost predicate Apart(s: seq<int>, i: int, j: int)
    requires 0 <= i < |s| && 0 <= j < |s|
  {
    i != j ==> s[i] != s[j]
  }

  /** No element occurs twice. */
  ghost predicate Distinct(s: seq<int>) {
    forall i, j | 0 <= i < |s| && 0 <= j < |s| :: Apart(s, i, j)
  }

  /** What the element at position `i` points to; position -1 stands for the head of the list. */
  ghost function After(s: seq<int>, i: int): int {
    if 0 <= i + 1 < |s| then s[i + 1] else NULL
  }

  ghost function Last(s: seq<int>): int {
    if s == [] then NULL else s[|s| - 1]
  }
}
