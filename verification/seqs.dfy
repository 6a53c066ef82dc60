/** Sequence helpers for the library's name order (a `std::vector<std::string>`). */
module Seqs {

  predicate NoDup<T(==)>(s: seq<T>) {
    forall i, j :: 0 <= i < j < |s| ==> s[i] != s[j]
  }

  /** The tail of a sequence without duplicates has none, and lacks the head. */
  lemma NoDupTail<T>(s: seq<T>)
    requires NoDup(s) && |s| > 0
    ensures NoDup(s[1..]) && s[0] !in s[1..]
  {
    forall i, j | 0 <= i < j < |s| - 1 ensures s[1..][i] != s[1..][j] {
      assert s[1..][i] == s[i + 1] && s[1..][j] == s[j + 1];
    }
  }

  /** A prefix of a prefix is a prefix. */
  lemma PrefixTrans<T>(a: seq<T>, b: seq<T>, c: seq<T>)
    requires |a| <= |b| <= |c| && c[..|b|] == b && b[..|a|] == a
    ensures c[..|a|] == a
  {
    assert c[..|a|] == c[..|b|][..|a|];
  }

  /** Appending `added` and then `rest` to `a` is appending `added + rest`:
      how a loop's appends, one call at a time, add up to a single append. */
  lemma AppendInTurn<T>(whole: seq<T>, a: seq<T>, added: seq<T>, rest: seq<T>, all: seq<T>)
    requires whole == (a + added) + rest && all == added + rest
    ensures whole == a + all
  {
    assert (a + added) + rest == a + (added + rest);
  }

  /** Position of the first occurrence of `x` in `s`. */
  function IndexOf<T(==)>(s: seq<T>, x: T): (k: nat)
    requires x in s
    ensures k < |s| && s[k] == x && x !in s[..k]
  {
    if s[0] == x then 0 else IndexOf(s[1..], x) + 1
  }

  /** No occurrence precedes the first. */
  lemma IndexOfFirst<T>(s: seq<T>, x: T, i: int)
    requires 0 <= i < |s| && s[i] == x
    ensures IndexOf(s, x) <= i
  {
  }

  /** `s` with its first occurrence of `x` erased (`vector::erase` at the first
      match found by a forward scan); `s` itself when `x` does not occur. */
  function RemoveFirst<T(==)>(s: seq<T>, x: T): (r: seq<T>)
    ensures x !in s ==> r == s
    ensures x in s ==> r == s[..IndexOf(s, x)] + s[IndexOf(s, x) + 1..]
  {
    if |s| == 0 then []
    else if s[0] == x then s[1..]
    else
      var r := [s[0]] + RemoveFirst(s[1..], x);
      assert x in s ==> s[..IndexOf(s, x)] == [s[0]] + s[1..][..IndexOf(s[1..], x)];
      r
  }

  /** Every element of `RemoveFirst(s, x)` sits in `s`, shifted by one past the erased slot. */
  lemma RemoveFirstIndex<T>(s: seq<T>, k: nat, r: seq<T>)
    requires k < |s| && r == s[..k] + s[k + 1..]
    ensures |r| == |s| - 1
    ensures forall i :: 0 <= i < k ==> r[i] == s[i]
    ensures forall i :: k <= i < |r| ==> r[i] == s[i + 1]
  {
  }

  /** Prepending an element absent from a sequence without duplicates keeps it so. */
  lemma NoDupCons<T>(h: T, t: seq<T>)
    requires NoDup(t) && h !in t
    ensures NoDup([h] + t)
  {
    var s := [h] + t;
    forall i, j | 0 <= i < j < |s| ensures s[i] != s[j] {
      assert s[j] == t[j - 1];
      if i > 0 {
        assert s[i] == t[i - 1];
      }
    }
  }

  /** Without duplicates, erasing the first occurrence erases the element. */
  lemma {:induction false} RemoveFirstNoDup<T>(s: seq<T>, x: T)
    requires NoDup(s)
    ensures NoDup(RemoveFirst(s, x))
    ensures forall y :: y in RemoveFirst(s, x) <==> y in s && y != x
    decreases |s|
  {
    if |s| > 0 {
      NoDupTail(s);
      assert s == [s[0]] + s[1..];
      if s[0] != x {
        RemoveFirstNoDup(s[1..], x);
        NoDupCons(s[0], RemoveFirst(s[1..], x));
      }
    }
  }
}
