/** Facts about sequences and sets that several modules share. */
module Collections {
  predicate Distinct<T(==)>(s: seq<T>) {
    forall i, j | 0 <= i < j < |s| :: s[i] != s[j]
  }

  /** The members of s as a set. */
  ghost function Elements<T>(s: seq<T>): (r: set<T>) { set x | x in s }

  lemma {:induction false} ElementCount<T>(s: seq<T>)
    requires Distinct(s)
    ensures |Elements(s)| == |s|
  {
    if s == [] {
      assert Elements(s) == {};
    } else {
      ElementCount(s[1..]);
      assert s == [s[0]] + s[1..];
      assert Elements(s) == Elements(s[1..]) + {s[0]};
    }
  }

  lemma {:induction false} SubsetCount<T>(a: set<T>, b: set<T>)
    requires a <= b
    ensures |a| <= |b|
    decreases a
  {
    if a != {} {
      var x :| x in a;
      SubsetCount(a - {x}, b - {x});
    }
  }

  /** n consecutive numbers. */
  ghost function Interval(lo: nat, n: nat): (r: set<nat>)
    ensures |r| == n && forall p: nat :: p in r <==> lo <= p < lo + n
  {
    if n == 0 then {} else Interval(lo, n - 1) + {lo + n - 1}
  }

  /** The members of s in some order, each once. */
  method Listed<T(==)>(s: set<T>) returns (q: seq<T>)
    ensures Distinct(q) && |q| == |s| && forall x :: x in q <==> x in s
  {
    q := [];
    var rest := s;
    while rest != {}
      invariant rest <= s && Distinct(q) && |q| + |rest| == |s| && forall x :: x in q <==> x in s - rest
      decreases rest
    {
      var x :| x in rest;
      assert x !in q;
      q, rest := q + [x], rest - {x};
    }
  }

  function Sum(ws: seq<nat>): (n: nat) {
    if ws == [] then 0 else Sum(ws[..|ws| - 1]) + ws[|ws| - 1]
  }

  lemma {:induction false} SumUpdate(ws: seq<nat>, p: nat, v: nat)
    requires p < |ws|
    ensures Sum(ws[p := v]) == Sum(ws) - ws[p] + v
  {
    var m := |ws| - 1;
    if p == m {
      assert ws[p := v][..m] == ws[..m];
    } else {
      assert ws[p := v][..m] == ws[..m][p := v];
      SumUpdate(ws[..m], p, v);
    }
  }

  lemma {:induction false} SumZero(ws: seq<nat>)
    requires forall p | 0 <= p < |ws| :: ws[p] == 0
    ensures Sum(ws) == 0
  {
    if ws != [] {
      SumZero(ws[..|ws| - 1]);
    }
  }
}
