/**
 What several of the collections share.
 */
module Common {

  /** A value, or the (zero, false) that says there is none. */
  datatype Option<T> = None | Some(value: T)

  ghost predicate NoDup<X>(s: seq<X>) {
    forall i, j :: 0 <= i < j < |s| ==> s[i] != s[j]
  }

  type Equaler<!T> = (T, T) -> bool

  /** Index i holds the first element equal to x. */
  ghost predicate IsFirst<T>(s: seq<T>, i: int, x: T, eq: Equaler<T>) {
    0 <= i < |s| && eq(s[i], x) && forall j :: 0 <= j < i ==> !eq(s[j], x)
  }

  ghost predicate Unequal<T>(s: seq<T>, x: T, eq: Equaler<T>) {
    forall i :: 0 <= i < |s| ==> !eq(s[i], x)
  }

  /** The elements that do not satisfy p, among the first n and among all, in order. */
  function RejectedIn<T>(s: seq<T>, n: nat, p: T -> bool): (r: seq<T>)
    requires n <= |s|
    ensures |r| <= n
  {
    if n == 0 then [] else RejectedIn(s, n - 1, p) + if p(s[n - 1]) then [] else [s[n - 1]]
  }

  function Rejected<T>(s: seq<T>, p: T -> bool): (r: seq<T>)
    ensures |r| <= |s|
  {
    RejectedIn(s, |s|, p)
  }

  lemma {:induction false} RejectedPrefix<T>(s: seq<T>, t: seq<T>, n: nat, p: T -> bool)
    requires n <= |s| && n <= |t| && forall i :: 0 <= i < n ==> s[i] == t[i]
    ensures RejectedIn(s, n, p) == RejectedIn(t, n, p)
  {
    if n > 0 {
      RejectedPrefix(s, t, n - 1, p);
    }
  }

  lemma RejectedOneMore<T>(s: seq<T>, x: T, p: T -> bool)
    ensures Rejected(s + [x], p) == if p(x) then Rejected(s, p) else Rejected(s, p) + [x]
  {
    RejectedPrefix(s + [x], s, |s|, p);
  }
}
