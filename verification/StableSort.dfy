/** A stable sort by an ascending numeric key: what slice::sort_by and Python's sorted compute. */
module StableSort {
  import opened Common

  ghost predicate Ascending<T>(s: seq<T>, key: T -> real) {
    forall i, j :: 0 <= i < j < |s| ==> key(s[i]) <= key(s[j])
  }

  /** Behind every element whose key is not larger. */
  function Insert<T>(s: seq<T>, x: T, key: T -> real): seq<T> {
    if s == [] || key(x) < key(s[0]) then [x] + s else [s[0]] + Insert(s[1..], x, key)
  }

  function Sorted<T>(s: seq<T>, key: T -> real): seq<T> {
    if s == [] then [] else Insert(Sorted(s[..|s| - 1], key), s[|s| - 1], key)
  }

  lemma {:induction false} InsertMembers<T>(s: seq<T>, x: T, key: T -> real)
    ensures multiset(Insert(s, x, key)) == multiset(s) + multiset{x}
  {
    if s != [] && key(x) >= key(s[0]) {
      InsertMembers(s[1..], x, key);
      assert s == [s[0]] + s[1..];
    }
  }

  lemma {:induction false} SortedMembers<T>(s: seq<T>, key: T -> real)
    ensures multiset(Sorted(s, key)) == multiset(s)
  {
    if s != [] {
      var m := |s| - 1;
      SortedMembers(s[..m], key);
      InsertMembers(Sorted(s[..m], key), s[m], key);
      assert s == s[..m] + [s[m]];
    }
  }

  lemma {:induction false} InsertAscending<T>(s: seq<T>, x: T, key: T -> real)
    requires Ascending(s, key)
    ensures Ascending(Insert(s, x, key), key)
  {
    if s != [] && key(x) >= key(s[0]) {
      var tail := Insert(s[1..], x, key);
      InsertAscending(s[1..], x, key);
      InsertMembers(s[1..], x, key);
      forall y | y in tail
        ensures key(s[0]) <= key(y)
      {
        assert y in multiset(tail);
        assert y in s[1..] || y == x;
      }
    }
  }

  lemma {:induction false} SortedAscending<T>(s: seq<T>, key: T -> real)
    ensures Ascending(Sorted(s, key), key)
  {
    if s != [] {
      SortedAscending(s[..|s| - 1], key);
      InsertAscending(Sorted(s[..|s| - 1], key), s[|s| - 1], key);
    }
  }

  lemma {:induction false} OnceInMultiset<T>(s: seq<T>, x: T)
    requires Distinct(s)
    ensures multiset(s)[x] <= 1
  {
    if s != [] {
      OnceInMultiset(s[1..], x);
      assert s == [s[0]] + s[1..];
      if x == s[0] {
        assert x !in s[1..];
      }
    }
  }

  lemma TwiceInMultiset<T>(s: seq<T>, i: nat, j: nat)
    requires i < j < |s| && s[i] == s[j]
    ensures multiset(s)[s[i]] >= 2
  {
    assert s == s[..j] + s[j..];
    assert s[i] in s[..j] && s[j] in s[j..];
  }

  /** Sorting a sequence without repeats rearranges it and orders it by key. */
  lemma SortedPermutes<T>(s: seq<T>, key: T -> real)
    requires Distinct(s)
    ensures Ascending(Sorted(s, key), key) && Distinct(Sorted(s, key)) && |Sorted(s, key)| == |s|
    ensures forall x :: x in Sorted(s, key) <==> x in s
  {
    var t := Sorted(s, key);
    SortedMembers(s, key);
    SortedAscending(s, key);
    assert |t| == |multiset(t)| == |multiset(s)| == |s|;
    forall x
      ensures x in t <==> x in s
    {
      assert x in t <==> x in multiset(t);
      assert x in s <==> x in multiset(s);
    }
    forall i, j | 0 <= i < j < |t|
      ensures t[i] != t[j]
    {
      OnceInMultiset(s, t[i]);
      if t[i] == t[j] {
        TwiceInMultiset(t, i, j);
      }
    }
  }
}
