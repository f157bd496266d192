/** The stable sort by key that the session and the automation lanes rely on. */
module StableSort {

  // Keys compare field by field, as tuples do.
  datatype Key = Key(first: int, second: int, third: int) {
    predicate LessEq(other: Key) {
      first < other.first
      || (first == other.first && (second < other.second || (second == other.second && third <= other.third)))
    }
  }

  ghost predicate Ordered<T>(s: seq<T>, key: T -> Key) {
    forall i, j :: 0 <= i < j < |s| ==> key(s[i]).LessEq(key(s[j]))
  }

  /** Puts `x` before the first element whose key is not smaller. */
  function Insert<T>(x: T, s: seq<T>, key: T -> Key): (r: seq<T>)
    ensures |r| == |s| + 1
  {
    if s == [] || key(x).LessEq(key(s[0])) then [x] + s else [s[0]] + Insert(x, s[1..], key)
  }

  function SortBy<T>(s: seq<T>, key: T -> Key): (r: seq<T>)
    ensures |r| == |s|
  {
    if s == [] then [] else Insert(s[0], SortBy(s[1..], key), key)
  }

  /** The elements with one key, in order. */
  ghost function WithKey<T(!new)>(s: seq<T>, key: T -> Key, k: Key): seq<T> {
    if s == [] then [] else (if key(s[0]) == k then [s[0]] else []) + WithKey(s[1..], key, k)
  }

  lemma {:induction false} InsertMembers<T>(x: T, s: seq<T>, key: T -> Key)
    ensures multiset(Insert(x, s, key)) == multiset{x} + multiset(s)
  {
    if s != [] && !key(x).LessEq(key(s[0])) {
      InsertMembers(x, s[1..], key);
      assert s == [s[0]] + s[1..];
    }
  }

  lemma {:induction false} InsertOrdered<T>(x: T, s: seq<T>, key: T -> Key)
    requires Ordered(s, key)
    ensures Ordered(Insert(x, s, key), key)
  {
    if s == [] || key(x).LessEq(key(s[0])) {
      FirstLeast(x, s, key);
    } else {
      var rest := Insert(x, s[1..], key);
      InsertOrdered(x, s[1..], key);
      InsertMembers(x, s[1..], key);
      forall j | 0 <= j < |rest| ensures key(s[0]).LessEq(key(rest[j])) {
        assert rest[j] in multiset(rest);
      }
      FirstLeast(s[0], rest, key);
    }
  }

  lemma FirstLeast<T>(x: T, s: seq<T>, key: T -> Key)
    requires Ordered(s, key) && (s != [] ==> key(x).LessEq(key(s[0])))
    ensures Ordered([x] + s, key)
  {
    forall j | 0 <= j < |s| ensures key(x).LessEq(key(s[j])) {
      assert j > 0 ==> key(s[0]).LessEq(key(s[j]));
    }
  }

  lemma {:induction false} InsertKeepsWithKey<T(!new)>(x: T, s: seq<T>, key: T -> Key, k: Key)
    ensures WithKey(Insert(x, s, key), key, k) == WithKey([x] + s, key, k)
  {
    if s != [] && !key(x).LessEq(key(s[0])) {
      var rest := Insert(x, s[1..], key);
      InsertKeepsWithKey(x, s[1..], key, k);
      assert ([s[0]] + rest)[1..] == rest;
      assert ([x] + s)[1..] == s && ([x] + s[1..])[1..] == s[1..];
    }
  }

  /** Sorting orders the elements, loses and invents none, and keeps equal keys in their old order. */
  lemma {:induction false} SortByIsStableSort<T(!new)>(s: seq<T>, key: T -> Key)
    ensures Ordered(SortBy(s, key), key)
    ensures multiset(SortBy(s, key)) == multiset(s)
    ensures forall k :: WithKey(SortBy(s, key), key, k) == WithKey(s, key, k)
  {
    if s != [] {
      var rest := SortBy(s[1..], key);
      SortByIsStableSort(s[1..], key);
      InsertOrdered(s[0], rest, key);
      InsertMembers(s[0], rest, key);
      assert s == [s[0]] + s[1..];
      forall k ensures WithKey(SortBy(s, key), key, k) == WithKey(s, key, k) {
        InsertKeepsWithKey(s[0], rest, key, k);
        assert ([s[0]] + rest)[1..] == rest;
      }
    }
  }

  /** What is already in order stays as it is. */
  lemma {:induction false} SortByOrdered<T>(s: seq<T>, key: T -> Key)
    requires Ordered(s, key)
    ensures SortBy(s, key) == s
  {
    if s != [] {
      SortByOrdered(s[1..], key);
      assert s == [s[0]] + s[1..];
    }
  }
}
