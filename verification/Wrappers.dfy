/** Values shared by every part of the model. */
module Wrappers {

  /** A primary key, as a SERIAL column hands them out. */
  type Id = nat

  datatype Option<+T> = None | Some(value: T)

  datatype Result<+T, +E> = Ok(value: T) | Err(error: E)

  /** No element occurs twice. */
  ghost predicate Distinct<T(!new)>(s: seq<T>) {
    forall i, j :: 0 <= i < j < |s| ==> s[i] != s[j]
  }

  /** `rows` lists exactly the elements of `s`, each one once, in some order. */
  ghost predicate Lists<T(!new)>(rows: seq<T>, s: set<T>) {
    Distinct(rows) && forall x :: x in rows <==> x in s
  }

  /** A SELECT without ORDER BY: the rows of `s`, in an order nobody promises. */
  method Rows<T(!new,==)>(s: set<T>) returns (rows: seq<T>)
    ensures Lists(rows, s)
  {
    rows := [];
    var rest := s;
    while rest != {}
      invariant rest <= s
      invariant Lists(rows, s - rest)
      decreases rest
    {
      var x :| x in rest;
      rows, rest := rows + [x], rest - {x};
    }
  }

  lemma Member<T>(s: set<T>) returns (x: T)
    requires s != {}
    ensures x in s
  {
    x :| x in s;
  }

  lemma SameSet<T(!new)>(a: set<T>, b: set<T>)
    requires forall x :: x in a <==> x in b
    ensures a == b
  {
  }

  lemma SameMap<K(!new), V>(m: map<K, V>, n: map<K, V>)
    requires m.Keys == n.Keys
    requires forall k :: k in m ==> m[k] == n[k]
    ensures m == n
  {
  }

  function ToSet<T>(s: seq<T>): set<T> {
    set x | x in s
  }

  /** A list has as many elements as members exactly when none is repeated. */
  lemma {:induction false} SizeOfSet<T(!new)>(s: seq<T>)
    ensures |ToSet(s)| <= |s| && (|ToSet(s)| == |s| <==> Distinct(s))
  {
    if s != [] {
      var n := |s| - 1;
      var rest := s[..n];
      SizeOfSet(rest);
      SameSet(ToSet(s), ToSet(rest) + {s[n]});
      assert Distinct(s) <==> Distinct(rest) && s[n] !in rest by {
        assert forall i :: 0 <= i < n ==> rest[i] == s[i];
      }
    }
  }
}
