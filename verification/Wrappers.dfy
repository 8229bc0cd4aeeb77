/** Stock datatypes and the list operations the services share. */
module Wrappers {

  datatype Option<+T> = None | Some(value: T)

  datatype Result<+T, +E> = Ok(value: T) | Err(error: E)

  ghost predicate Distinct<T>(s: seq<T>) {
    forall i, j :: 0 <= i < j < |s| ==> s[i] != s[j]
  }

  /** `[x for x in s if x not in gone]`: order and repeats are kept. */
  function Without<T(==,!new)>(s: seq<T>, gone: seq<T>): (r: seq<T>)
    ensures forall x :: x in r <==> x in s && x !in gone
    ensures |r| <= |s|
    ensures (forall x :: x in s ==> x !in gone) ==> r == s
    ensures (forall x :: x in s ==> x in gone) ==> r == []
  {
    if s == [] then []
    else
      var rest := Without(s[1..], gone);
      if s[0] in gone then
        rest
      else
        assert s == [s[0]] + s[1..];
        [s[0]] + rest
  }

  /** Whether two lists meet, the `&&` operator of Postgres arrays. */
  predicate Overlap<T(==)>(a: seq<T>, b: seq<T>) {
    exists x :: x in a && x in b
  }

  predicate AllDistinct<T(==)>(s: seq<T>)
    ensures AllDistinct(s) <==> Distinct(s)
  {
    if s == [] then true
    else
      assert s == [s[0]] + s[1..];
      s[0] !in s[1..] && AllDistinct(s[1..])
  }
}
