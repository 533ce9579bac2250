/** Sequence and option helpers shared by the models. All folds peel the last element, so that a
    loop over `s[..i]` extends them by one step. */
module Seqs {

  datatype Option<+T> = None | Some(value: T)

  function Last<T>(s: seq<T>): T
    requires s != []
  {
    s[|s| - 1]
  }

  function Front<T>(s: seq<T>): seq<T>
    requires s != []
  {
    s[..|s| - 1]
  }

  function Flatten<T>(ss: seq<seq<T>>): seq<T> {
    if ss == [] then [] else Flatten(Front(ss)) + Last(ss)
  }

  function Filter<T>(p: T -> bool, s: seq<T>): seq<T> {
    if s == [] then [] else Filter(p, Front(s)) + if p(Last(s)) then [Last(s)] else []
  }

  function Map<T, U>(f: T -> U, s: seq<T>): (r: seq<U>)
    ensures |r| == |s|
    ensures forall i :: 0 <= i < |s| ==> r[i] == f(s[i])
  {
    if s == [] then [] else Map(f, Front(s)) + [f(Last(s))]
  }

  /** A dictionary filled in order: a later element replaces an earlier one with its key. */
  function Index<V, K(==), T>(key: V -> K, value: V -> T, s: seq<V>): map<K, T> {
    if s == [] then map[] else Index(key, value, Front(s))[key(Last(s)) := value(Last(s))]
  }

  ghost predicate Distinct<T>(s: seq<T>) {
    forall i, j :: 0 <= i < j < |s| ==> s[i] != s[j]
  }

  ghost predicate DistinctBy<T, K>(key: T -> K, s: seq<T>) {
    forall i, j :: 0 <= i < j < |s| ==> key(s[i]) != key(s[j])
  }

  /** The first item of this name; an item without a name is never found. */
  function FirstNamed<T>(nameOf: T -> string, items: seq<T>, name: string): Option<T> {
    if items == [] then None
    else if nameOf(items[0]) != "" && nameOf(items[0]) == name then Some(items[0])
    else FirstNamed(nameOf, items[1..], name)
  }

  lemma {:induction false} TakeOneMore<T>(s: seq<T>, i: nat)
    requires i < |s|
    ensures s[..i + 1] == s[..i] + [s[i]]
    ensures Front(s[..i + 1]) == s[..i] && Last(s[..i + 1]) == s[i]
  {
  }

  lemma {:induction false} Regroup<T>(a: seq<T>, b: seq<T>, c: seq<T>)
    ensures (a + b) + c == a + (b + c)
  {
  }

  lemma {:induction false} FlattenOne<T>(ss: seq<seq<T>>, s: seq<T>)
    ensures Flatten(ss + [s]) == Flatten(ss) + s
  {
    assert Front(ss + [s]) == ss;
  }

  lemma {:induction false} FlattenAppend<T>(a: seq<seq<T>>, b: seq<seq<T>>)
    ensures Flatten(a + b) == Flatten(a) + Flatten(b)
  {
    if b == [] {
      assert a + b == a;
    } else {
      var front, last := Front(b), Last(b);
      FlattenAppend(a, front);
      FlattenOne(a + front, last);
      Regroup(a, front, [last]);
      Regroup(Flatten(a), Flatten(front), last);
      assert b == front + [last];
    }
  }

  lemma {:induction false} FilterOne<T>(p: T -> bool, s: seq<T>, x: T)
    ensures Filter(p, s + [x]) == Filter(p, s) + if p(x) then [x] else []
  {
    assert Front(s + [x]) == s;
  }

  lemma {:induction false} MapOne<T, U>(f: T -> U, s: seq<T>, x: T)
    ensures Map(f, s + [x]) == Map(f, s) + [f(x)]
  {
    assert Front(s + [x]) == s;
  }

  lemma {:induction false} IndexOfLast<V, K, T>(key: V -> K, value: V -> T, s: seq<V>, i: nat)
    requires i < |s| && forall j :: i < j < |s| ==> key(s[j]) != key(s[i])
    ensures key(s[i]) in Index(key, value, s) && Index(key, value, s)[key(s[i])] == value(s[i])
  {
    if i < |s| - 1 {
      assert Front(s)[i] == s[i] && Last(s) == s[|s| - 1];
      IndexOfLast(key, value, Front(s), i);
    }
  }

  lemma {:induction false} FilterAppend<T>(p: T -> bool, a: seq<T>, b: seq<T>)
    ensures Filter(p, a + b) == Filter(p, a) + Filter(p, b)
  {
    if b == [] {
      assert a + b == a;
    } else {
      assert a + b == (a + Front(b)) + [Last(b)];
      FilterAppend(p, a, Front(b));
      FilterOne(p, a + Front(b), Last(b));
    }
  }

  lemma {:induction false} MapPrefix<T, U>(f: T -> U, s: seq<T>, k: nat)
    requires k <= |s|
    ensures Map(f, s)[..k] == Map(f, s[..k])
  {
  }

  lemma {:induction false} MapAppend<T, U>(f: T -> U, a: seq<T>, b: seq<T>)
    ensures Map(f, a + b) == Map(f, a) + Map(f, b)
  {
  }

  lemma {:induction false} FilterMembers<T>(p: T -> bool, s: seq<T>, x: T)
    ensures x in Filter(p, s) <==> x in s && p(x)
  {
    if s != [] {
      FilterMembers(p, Front(s), x);
      assert s == Front(s) + [Last(s)];
    }
  }

  lemma {:induction false} FilterKeepsAll<T>(p: T -> bool, s: seq<T>)
    requires forall x :: x in s ==> p(x)
    ensures Filter(p, s) == s
  {
    if s != [] {
      var front, last := Front(s), Last(s);
      assert s == front + [last];
      FilterKeepsAll(p, front);
    }
  }

  lemma {:induction false} FilterShrinks<T>(p: T -> bool, s: seq<T>, i: nat)
    ensures |Filter(p, s)| <= |s|
    ensures i < |s| && !p(s[i]) ==> |Filter(p, s)| < |s|
  {
    if s != [] {
      FilterShrinks(p, Front(s), i);
    }
  }
}
