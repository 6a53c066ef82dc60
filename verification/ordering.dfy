/** The order in which a `std::set<std::string>` (and a jsoncpp object's member
    list) is iterated: lexicographic, character by character, a proper prefix
    first. */
module Ordering {

  /** `a` comes no later than `b`. */
  predicate Below(a: string, b: string)
    decreases |a|
  {
    |a| == 0 || (|b| > 0 && (a[0] < b[0] || (a[0] == b[0] && Below(a[1..], b[1..]))))
  }

  lemma {:induction false} BelowReflexive(a: string)
    ensures Below(a, a)
    decreases |a|
  {
    if |a| > 0 {
      BelowReflexive(a[1..]);
    }
  }

  lemma {:induction false} BelowAntisymmetric(a: string, b: string)
    requires Below(a, b) && Below(b, a)
    ensures a == b
    decreases |a|
  {
    if |a| > 0 {
      BelowAntisymmetric(a[1..], b[1..]);
      assert a == [a[0]] + a[1..] && b == [b[0]] + b[1..];
    }
  }

  lemma {:induction false} BelowTransitive(a: string, b: string, c: string)
    requires Below(a, b) && Below(b, c)
    ensures Below(a, c)
    decreases |a|
  {
    if |a| > 0 && a[0] == b[0] && b[0] == c[0] {
      BelowTransitive(a[1..], b[1..], c[1..]);
    }
  }

  lemma {:induction false} BelowTotal(a: string, b: string)
    ensures Below(a, b) || Below(b, a)
    decreases |a|
  {
    if |a| > 0 && |b| > 0 && a[0] == b[0] {
      BelowTotal(a[1..], b[1..]);
    }
  }

  lemma BelowIsAntisymmetric()
    ensures forall a, b :: Below(a, b) && Below(b, a) ==> a == b
  {
    forall a, b | Below(a, b) && Below(b, a) ensures a == b {
      BelowAntisymmetric(a, b);
    }
  }

  /** Every finite non-empty set of strings has a first element. */
  lemma {:induction false} LeastExists(s: set<string>)
    requires s != {}
    ensures exists m :: m in s && forall x :: x in s ==> Below(m, x)
    decreases s
  {
    var y :| y in s;
    BelowReflexive(y);
    if s != {y} {
      var rest := s - {y};
      LeastExists(rest);
      var m :| m in rest && forall x :: x in rest ==> Below(m, x);
      BelowTotal(m, y);
      if Below(m, y) {
        forall x | x in s ensures Below(m, x) {
          if x != y {
            assert x in rest;
          }
        }
      } else {
        forall x | x in s ensures Below(y, x) {
          if x != y {
            assert x in rest && Below(m, x);
            BelowTransitive(y, m, x);
          }
        }
      }
    }
  }

  /** The first element of a non-empty set. */
  function Least(s: set<string>): (m: string)
    requires s != {}
    ensures m in s && forall x :: x in s ==> Below(m, x)
  {
    LeastExists(s);
    BelowIsAntisymmetric();
    var m :| m in s && forall x :: x in s ==> Below(m, x);
    m
  }

  /** Strictly increasing: each element comes before every later one. */
  predicate Increasing(r: seq<string>) {
    forall i, j :: 0 <= i < j < |r| ==> Below(r[i], r[j]) && r[i] != r[j]
  }

  /** The elements of `s` in iteration order. */
  function SortedKeys(s: set<string>): (r: seq<string>)
    ensures |r| == |s|
    ensures forall x :: x in r <==> x in s
    ensures Increasing(r)
    decreases s
  {
    if s == {} then []
    else
      var m := Least(s);
      [m] + SortedKeys(s - {m})
  }
}
