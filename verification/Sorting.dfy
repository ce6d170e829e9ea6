/** Python's stable sort by a key, and when its result depends on the order of its input. */
module Sorting {
  import opened Strings

  type Key = seq<string>

  /** x after every element whose key is not above its own. */
  function InsertBy<T>(key: T -> Key, x: T, s: seq<T>): (r: seq<T>)
    ensures multiset(r) == multiset(s) + multiset{x}
  {
    if s == [] || !TupleLess(key(x), key(s[|s| - 1])) then s + [x]
    else
      var n := |s| - 1;
      assert s == s[..n] + [s[n]];
      InsertBy(key, x, s[..n]) + [s[n]]
  }

  /** sorted(s, key=key). */
  function SortBy<T>(key: T -> Key, s: seq<T>): (r: seq<T>)
    ensures multiset(r) == multiset(s)
  {
    if s == [] then []
    else
      var n := |s| - 1;
      assert s == s[..n] + [s[n]];
      InsertBy(key, s[n], SortBy(key, s[..n]))
  }

  ghost predicate SortedBy<T>(key: T -> Key, s: seq<T>) {
    forall i, j :: 0 <= i < j < |s| ==> !TupleLess(key(s[j]), key(s[i]))
  }

  lemma Member<T>(s: seq<T>, t: seq<T>, x: T)
    requires multiset(s) == multiset(t) && x in s
    ensures x in t
  {
    assert x in multiset(s);
  }

  lemma {:induction false} InsertKeepsSorted<T>(key: T -> Key, x: T, s: seq<T>)
    requires SortedBy(key, s)
    ensures SortedBy(key, InsertBy(key, x, s))
  {
    hide TupleLess;
    if s == [] {
    } else {
      var n := |s| - 1;
      if TupleLess(key(x), key(s[n])) {
        TupleLessIsTotal(key(x), key(s[n]));
        PrefixFacts(key, s, n);
        InsertKeepsSorted(key, x, s[..n]);
        var r := InsertBy(key, x, s[..n]);
        forall i | 0 <= i < |r| ensures !TupleLess(key(s[n]), key(r[i])) { Member(r, s[..n] + [x], r[i]); }
        SortedAppend(key, r, s[n]);
      } else {
        TupleLessIsTotal(key(x), key(x));
        forall i | 0 <= i < |s| ensures !TupleLess(key(x), key(s[i])) {
          if i < n { NotLessTransitive(key(s[i]), key(s[n]), key(x)); }
        }
        SortedAppend(key, s, x);
      }
    }
  }

  lemma SortedAppend<T>(key: T -> Key, s: seq<T>, x: T)
    requires SortedBy(key, s) && forall i :: 0 <= i < |s| ==> !TupleLess(key(x), key(s[i]))
    ensures SortedBy(key, s + [x])
  {
    hide TupleLess;
  }

  lemma NotLessTransitive(a: Key, b: Key, c: Key)
    requires !TupleLess(b, a) && !TupleLess(c, b)
    ensures !TupleLess(c, a)
  {
    TupleLessIsTotal(a, b);
    TupleLessIsTotal(b, c);
    TupleLessIsTotal(a, c);
    if TupleLess(a, b) && TupleLess(b, c) { TupleLessIsTransitive(a, b, c); }
  }

  lemma {:induction false} SortBySorts<T>(key: T -> Key, s: seq<T>)
    ensures SortedBy(key, SortBy(key, s))
  {
    if s == [] {
    } else {
      var n := |s| - 1;
      SortBySorts(key, s[..n]);
      InsertKeepsSorted(key, s[n], SortBy(key, s[..n]));
    }
  }

  lemma {:induction false} SortedIsFixed<T>(key: T -> Key, s: seq<T>)
    requires SortedBy(key, s)
    ensures SortBy(key, s) == s
  {
    hide TupleLess, InsertBy;
    if s == [] {
    } else {
      var n := |s| - 1;
      SortedIsFixed(key, s[..n]);
      InsertLast(key, s[n], s[..n]);
      assert s == s[..n] + [s[n]];
    }
  }

  lemma InsertLast<T>(key: T -> Key, x: T, s: seq<T>)
    requires s == [] || !TupleLess(key(x), key(s[|s| - 1]))
    ensures InsertBy(key, x, s) == s + [x]
  {
  }

  /** Elements with equal keys are equal. */
  ghost predicate KeysDetermine<T>(key: T -> Key, s: seq<T>) {
    forall x, y :: x in s && y in s && key(x) == key(y) ==> x == y
  }

  lemma LastIsGreatest<T>(key: T -> Key, s: seq<T>, x: T)
    requires SortedBy(key, s) && x in s
    ensures s != [] && !TupleLess(key(s[|s| - 1]), key(x))
  {
    TupleLessIsTotal(key(x), key(x));
  }

  lemma DropLast<T>(s: seq<T>)
    requires s != []
    ensures multiset(s[..|s| - 1]) == multiset(s) - multiset{s[|s| - 1]}
  {
    assert s == s[..|s| - 1] + [s[|s| - 1]];
  }

  lemma RemoveAt<T>(s: seq<T>, j: nat)
    requires j < |s|
    ensures multiset(s[..j] + s[j + 1..]) == multiset(s) - multiset{s[j]}
  {
    assert s == s[..j] + [s[j]] + s[j + 1..];
  }

  lemma LastsAgree<T>(key: T -> Key, s: seq<T>, t: seq<T>)
    requires SortedBy(key, s) && SortedBy(key, t) && multiset(s) == multiset(t) && KeysDetermine(key, s) && s != []
    ensures |s| == |t| && s[|s| - 1] == t[|t| - 1] && multiset(s[..|s| - 1]) == multiset(t[..|t| - 1])
  {
    hide SortedBy;
    assert |multiset(s)| == |multiset(t)|;
    var x, y := s[|s| - 1], t[|t| - 1];
    Member(s, t, x);
    Member(t, s, y);
    LastIsGreatest(key, s, y);
    LastIsGreatest(key, t, x);
    TupleLessIsTotal(key(x), key(y));
    DropLast(s);
    DropLast(t);
  }

  lemma PrefixFacts<T>(key: T -> Key, s: seq<T>, n: nat)
    requires n <= |s|
    ensures SortedBy(key, s) ==> SortedBy(key, s[..n])
    ensures KeysDetermine(key, s) ==> KeysDetermine(key, s[..n])
  {
  }

  lemma {:induction false} SortedUnique<T>(key: T -> Key, s: seq<T>, t: seq<T>)
    requires SortedBy(key, s) && SortedBy(key, t) && multiset(s) == multiset(t) && KeysDetermine(key, s)
    ensures s == t
  {
    hide SortedBy, KeysDetermine;
    if s != [] {
      var n := |s| - 1;
      LastsAgree(key, s, t);
      PrefixFacts(key, s, n);
      PrefixFacts(key, t, n);
      SortedUnique(key, s[..n], t[..n]);
      assert s == s[..n] + [s[n]] && t == t[..n] + [t[n]];
    } else {
      assert |multiset(t)| == 0;
    }
  }

  /** When keys determine elements the order of the input does not matter. */
  lemma PermutationsSortAlike<T>(key: T -> Key, s: seq<T>, t: seq<T>)
    requires multiset(s) == multiset(t) && KeysDetermine(key, s)
    ensures SortBy(key, s) == SortBy(key, t)
  {
    SortBySorts(key, s);
    SortBySorts(key, t);
    assert KeysDetermine(key, SortBy(key, s)) by {
      forall x, y | x in SortBy(key, s) && y in SortBy(key, s) && key(x) == key(y) ensures x == y {
        Member(SortBy(key, s), s, x);
        Member(SortBy(key, s), s, y);
      }
    }
    SortedUnique(key, SortBy(key, s), SortBy(key, t));
  }

  /** The elements with a given key, in order. */
  function WithKey<T>(key: T -> Key, s: seq<T>, k: Key): seq<T> {
    if s == [] then []
    else WithKey(key, s[..|s| - 1], k) + (if key(s[|s| - 1]) == k then [s[|s| - 1]] else [])
  }

  lemma WithKeySnoc<T>(key: T -> Key, s: seq<T>, x: T, k: Key)
    ensures WithKey(key, s + [x], k) == WithKey(key, s, k) + (if key(x) == k then [x] else [])
  {
    assert (s + [x])[..|s|] == s;
  }

  lemma {:induction false} InsertIsStable<T>(key: T -> Key, x: T, s: seq<T>, k: Key)
    ensures WithKey(key, InsertBy(key, x, s), k) == WithKey(key, s, k) + (if key(x) == k then [x] else [])
  {
    hide TupleLess, WithKey;
    if s == [] || !TupleLess(key(x), key(s[|s| - 1])) {
      WithKeySnoc(key, s, x, k);
    } else {
      var n := |s| - 1;
      InsertIsStable(key, x, s[..n], k);
      TupleLessIsTotal(key(x), key(s[n]));
      WithKeySnoc(key, InsertBy(key, x, s[..n]), s[n], k);
      WithKeySnoc(key, s[..n], s[n], k);
      assert s == s[..n] + [s[n]];
    }
  }

  /** Elements with the same key keep their order. */
  lemma {:induction false} SortIsStable<T>(key: T -> Key, s: seq<T>, k: Key)
    ensures WithKey(key, SortBy(key, s), k) == WithKey(key, s, k)
  {
    if s == [] {
    } else {
      var n := |s| - 1;
      SortIsStable(key, s[..n], k);
      InsertIsStable(key, s[n], SortBy(key, s[..n]), k);
    }
  }

  lemma {:induction false} WithKeyConcat<T>(key: T -> Key, s: seq<T>, t: seq<T>, k: Key)
    ensures WithKey(key, s + t, k) == WithKey(key, s, k) + WithKey(key, t, k)
    decreases |t|
  {
    if t == [] {
      assert s + t == s;
    } else {
      hide WithKey;
      var n := |t| - 1;
      WithKeyConcat(key, s, t[..n], k);
      WithKeySnoc(key, s + t[..n], t[n], k);
      WithKeySnoc(key, t[..n], t[n], k);
      assert t == t[..n] + [t[n]] && s + t == s + t[..n] + [t[n]];
    }
  }

  function Mapped<S, T>(f: S -> T, s: seq<S>): (r: seq<T>)
    ensures |r| == |s| && forall i :: 0 <= i < |s| ==> r[i] == f(s[i])
  {
    seq(|s|, i requires 0 <= i < |s| => f(s[i]))
  }

  /** A map that leaves keys alone commutes with sorting. */
  lemma {:induction false} SortCommutes<S, T>(key: S -> Key, f: S -> T, key2: T -> Key, s: seq<S>)
    requires forall x :: x in s ==> key2(f(x)) == key(x)
    ensures Mapped(f, SortBy(key, s)) == SortBy(key2, Mapped(f, s))
  {
    if s == [] {
    } else {
      var n := |s| - 1;
      SortCommutes(key, f, key2, s[..n]);
      forall y | y in SortBy(key, s[..n]) ensures key2(f(y)) == key(y) { Member(SortBy(key, s[..n]), s[..n], y); }
      InsertCommutes(key, f, key2, s[n], SortBy(key, s[..n]));
      assert Mapped(f, s)[..n] == Mapped(f, s[..n]);
    }
  }

  lemma {:induction false} InsertCommutes<S, T>(key: S -> Key, f: S -> T, key2: T -> Key, x: S, s: seq<S>)
    requires key2(f(x)) == key(x) && forall y :: y in s ==> key2(f(y)) == key(y)
    ensures Mapped(f, InsertBy(key, x, s)) == InsertBy(key2, f(x), Mapped(f, s))
  {
    if s == [] || !TupleLess(key(x), key(s[|s| - 1])) {
      assert Mapped(f, s + [x]) == Mapped(f, s) + [f(x)];
    } else {
      var n := |s| - 1;
      InsertCommutes(key, f, key2, x, s[..n]);
      assert Mapped(f, s)[..n] == Mapped(f, s[..n]);
      var r := InsertBy(key, x, s[..n]);
      assert Mapped(f, r + [s[n]]) == Mapped(f, r) + [f(s[n])];
    }
  }

  lemma {:induction false} MappedPermutes<S, T>(f: S -> T, s: seq<S>, t: seq<S>)
    requires multiset(s) == multiset(t)
    ensures multiset(Mapped(f, s)) == multiset(Mapped(f, t))
    decreases |s|
  {
    assert |multiset(s)| == |s| && |multiset(t)| == |t|;
    if s == [] {
    } else {
      var n := |s| - 1;
      Member(s, t, s[n]);
      var j :| 0 <= j < |t| && t[j] == s[n];
      DropLast(s);
      RemoveAt(t, j);
      MappedPermutes(f, s[..n], t[..j] + t[j + 1..]);
      MappedWithout(f, s, n);
      MappedWithout(f, t, j);
      assert s[..n] + s[n + 1..] == s[..n];
    }
  }

  lemma MappedWithout<S, T>(f: S -> T, s: seq<S>, j: nat)
    requires j < |s|
    ensures multiset(Mapped(f, s)) == multiset(Mapped(f, s[..j] + s[j + 1..])) + multiset{f(s[j])}
  {
    var r := Mapped(f, s);
    assert Mapped(f, s[..j] + s[j + 1..]) == r[..j] + r[j + 1..];
    assert r == r[..j] + [r[j]] + r[j + 1..];
  }

  function Itself(k: Key): Key { k }

  /** Even when keys do not determine elements, the keys come out alike. */
  lemma SortedKeysAlike<T>(key: T -> Key, s: seq<T>, t: seq<T>)
    requires multiset(s) == multiset(t)
    ensures Mapped(key, SortBy(key, s)) == Mapped(key, SortBy(key, t))
  {
    SortCommutes(key, key, Itself, s);
    SortCommutes(key, key, Itself, t);
    MappedPermutes(key, s, t);
    PermutationsSortAlike(Itself, Mapped(key, s), Mapped(key, t));
  }
}
