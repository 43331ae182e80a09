/** The order dictionary entries are sorted by (tools/gen_ja_dict.py), and the comparison
    the reader searches with (lang/jpn/port/ja_dict.c). */
module JaOrder {
  import opened Bytes
  import opened Segments
  import opened JaPool

  /** How Python compares byte strings: the first difference decides, and a first part
      of a string comes before it. */
  function Compare(a: Str, b: Str): int
  {
    if a == [] then if b == [] then 0 else -1
    else if b == [] then 1
    else if a[0] != b[0] then if a[0] < b[0] then -1 else 1
    else Compare(a[1..], b[1..])
  }

  lemma {:induction false} CompareFlip(a: Str, b: Str)
    ensures Compare(a, b) == 0 - Compare(b, a)
    ensures Compare(a, b) == 0 <==> a == b
  {
    if a == [] || b == [] || a[0] != b[0] {
    } else {
      CompareFlip(a[1..], b[1..]);
      assert a == [a[0]] + a[1..] && b == [b[0]] + b[1..];
    }
  }

  lemma {:induction false} CompareTrans(a: Str, b: Str, c: Str)
    requires Compare(a, b) <= 0 && Compare(b, c) <= 0
    ensures Compare(a, c) <= 0
    ensures Compare(a, b) < 0 || Compare(b, c) < 0 ==> Compare(a, c) < 0
  {
    if a == [] || b == [] || c == [] || a[0] != b[0] || b[0] != c[0] {
    } else {
      CompareTrans(a[1..], b[1..], c[1..]);
    }
  }

  lemma {:induction false} CompareAt(a: Str, b: Str, k: nat)
    requires k <= |a| && k <= |b| && a[..k] == b[..k]
    ensures Compare(a, b) == Compare(a[k..], b[k..])
  {
    if k == 0 {
      assert a[0..] == a && b[0..] == b;
    } else {
      assert a[0] == a[..k][0] == b[..k][0] == b[0];
      assert a[1..][..k - 1] == a[..k][1..] && b[1..][..k - 1] == b[..k][1..];
      CompareAt(a[1..], b[1..], k - 1);
      assert a[1..][k - 1..] == a[k..] && b[1..][k - 1..] == b[k..];
    }
  }

  /** `a` comes before `b` as byte strings do: it is a first part of it, or has the smaller
      byte where they first differ. */
  predicate Less(a: Str, b: Str)
  {
    a < b || exists i :: 0 <= i < |a| && i < |b| && a[..i] == b[..i] && a[i] < b[i]
  }

  lemma LessHead(a: Str, b: Str)
    requires a != [] && b != [] && a[0] != b[0]
    ensures Less(a, b) <==> a[0] < b[0]
  {
    assert a[..0] == b[..0];
  }

  lemma LessTail(a: Str, b: Str)
    requires a != [] && b != [] && a[0] == b[0]
    ensures Less(a, b) <==> Less(a[1..], b[1..])
  {
    assert a == [a[0]] + a[1..] && b == [b[0]] + b[1..];
    if i :| 0 <= i < |a| - 1 && i < |b| - 1 && a[1..][..i] == b[1..][..i] && a[1..][i] < b[1..][i] {
      assert a[..i + 1] == [a[0]] + a[1..][..i] && b[..i + 1] == [b[0]] + b[1..][..i];
      assert a[i + 1] < b[i + 1];
    }
    if i :| 0 <= i < |a| && i < |b| && a[..i] == b[..i] && a[i] < b[i] {
      assert a[1..][..i - 1] == a[..i][1..] && b[1..][..i - 1] == b[..i][1..];
      assert a[1..][i - 1] < b[1..][i - 1];
    }
  }

  lemma {:induction false} CompareIs(a: Str, b: Str)
    ensures Compare(a, b) < 0 <==> Less(a, b)
  {
    if a == [] || b == [] {
    } else if a[0] != b[0] {
      LessHead(a, b);
    } else {
      hide Less;
      CompareIs(a[1..], b[1..]);
      LessTail(a, b);
    }
  }

  /** The reader's comparison of a pooled string, which ends at its NUL, with a key, which
      does not: the order the compiler sorted by. */
  method CmpKey(b: seq<byte>, at: nat, key: Str, ghost s: Str) returns (r: int)
    requires Placed(b, at, s) && NoNul(s)
    ensures r == Compare(s, key)
  {
    assert forall j :: 0 <= j < |s| ==> b[at + j] == (s + [0])[j] == s[j];
    assert b[at + |s|] == (s + [0])[|s|] == 0;
    var i := 0;
    while i < |key|
      invariant 0 <= i <= |key| && i <= |s|
      invariant s[..i] == key[..i]
    {
      CompareAt(s, key, i);
      assert key[i..] != [];
      if b[at + i] == 0 {
        assert s[i..] == [];
        return -1;
      }
      if b[at + i] != key[i] {
        return if b[at + i] < key[i] then -1 else 1;
      }
      i := i + 1;
    }
    CompareAt(s, key, |key|);
    assert key[|key|..] == [];
    return if b[at + |key|] == 0 then 0 else 1;
  }

  // ---- sorting ----------------------------------------------------------------------

  /** Surface, then cost. */
  datatype Key = Key(surface: Str, cost: int)

  predicate Before(a: Key, b: Key)
  {
    Compare(a.surface, b.surface) < 0 || (a.surface == b.surface && a.cost <= b.cost)
  }

  lemma BeforeTotal(a: Key, b: Key)
    ensures Before(a, b) || Before(b, a)
  {
    CompareFlip(a.surface, b.surface);
  }

  lemma BeforeTrans(a: Key, b: Key, c: Key)
    requires Before(a, b) && Before(b, c)
    ensures Before(a, c)
  {
    CompareFlip(a.surface, b.surface);
    CompareFlip(b.surface, c.surface);
    CompareTrans(a.surface, b.surface, c.surface);
  }

  predicate Sorted<T>(s: seq<T>, key: T -> Key)
  {
    forall i, j :: 0 <= i < j < |s| ==> Before(key(s[i]), key(s[j]))
  }

  /** list.sort with a key: stable, so of equal keys the earlier stays first. */
  function Insert<T>(x: T, s: seq<T>, key: T -> Key): (r: seq<T>)
    ensures |r| == |s| + 1 && multiset(r) == multiset{x} + multiset(s)
  {
    if s == [] || Before(key(x), key(s[0])) then [x] + s
    else
      assert s == [s[0]] + s[1..];
      [s[0]] + Insert(x, s[1..], key)
  }

  function Sort<T>(s: seq<T>, key: T -> Key): (r: seq<T>)
    ensures |r| == |s| && multiset(r) == multiset(s)
  {
    if s == [] then []
    else
      assert s == [s[0]] + s[1..];
      Insert(s[0], Sort(s[1..], key), key)
  }

  lemma {:induction false} InsertSorts<T>(x: T, s: seq<T>, key: T -> Key)
    requires Sorted(s, key)
    ensures Sorted(Insert(x, s, key), key)
  {
    var r := Insert(x, s, key);
    if s == [] {
    } else if Before(key(x), key(s[0])) {
      forall i, j | 0 <= i < j < |r|
        ensures Before(key(r[i]), key(r[j]))
      {
        if i == 0 && j > 1 {
          BeforeTrans(key(x), key(s[0]), key(s[j - 1]));
        }
      }
    } else {
      BeforeTotal(key(x), key(s[0]));
      InsertSorts(x, s[1..], key);
      forall j | 1 <= j < |r|
        ensures Before(key(r[0]), key(r[j]))
      {
        assert r[j] in multiset(Insert(x, s[1..], key));
        if r[j] != x {
          assert r[j] in s[1..];
        }
      }
    }
  }

  lemma {:induction false} SortSorts<T>(s: seq<T>, key: T -> Key)
    ensures Sorted(Sort(s, key), key)
  {
    if s == [] {
    } else {
      SortSorts(s[1..], key);
      InsertSorts(s[0], Sort(s[1..], key), key);
    }
  }

  /** The items with a given key, in their order. */
  function With<T>(s: seq<T>, key: T -> Key, k: Key): seq<T>
  {
    if s == [] then [] else (if key(s[0]) == k then [s[0]] else []) + With(s[1..], key, k)
  }

  lemma {:induction false} InsertStable<T>(x: T, s: seq<T>, key: T -> Key, k: Key)
    ensures With(Insert(x, s, key), key, k) == (if key(x) == k then [x] else []) + With(s, key, k)
  {
    if s == [] || Before(key(x), key(s[0])) {
      assert ([x] + s)[1..] == s;
    } else {
      InsertStable(x, s[1..], key, k);
      assert ([s[0]] + Insert(x, s[1..], key))[1..] == Insert(x, s[1..], key);
      CompareFlip(key(x).surface, key(s[0]).surface);
    }
  }

  /** Rows with the same surface and cost keep the order of the CSV. */
  lemma {:induction false} SortStable<T>(s: seq<T>, key: T -> Key, k: Key)
    ensures With(Sort(s, key), key, k) == With(s, key, k)
  {
    if s == [] {
    } else {
      SortStable(s[1..], key, k);
      InsertStable(s[0], Sort(s[1..], key), key, k);
    }
  }

  /** Two lists match item by item, keys included. */
  ghost predicate Match<A, B>(a: seq<A>, b: seq<B>, ka: A -> Key, kb: B -> Key, r: (A, B) -> bool)
  {
    |a| == |b| && forall i :: 0 <= i < |a| ==> r(a[i], b[i]) && ka(a[i]) == kb(b[i])
  }

  lemma MatchCons<A, B>(x: A, y: B, a: seq<A>, b: seq<B>, ka: A -> Key, kb: B -> Key, r: (A, B) -> bool)
    requires r(x, y) && ka(x) == kb(y) && Match(a, b, ka, kb, r)
    ensures Match([x] + a, [y] + b, ka, kb, r)
  {
  }

  lemma MatchTail<A, B>(a: seq<A>, b: seq<B>, ka: A -> Key, kb: B -> Key, r: (A, B) -> bool)
    requires Match(a, b, ka, kb, r) && a != []
    ensures r(a[0], b[0]) && ka(a[0]) == kb(b[0]) && Match(a[1..], b[1..], ka, kb, r)
  {
  }

  lemma {:induction false} InsertMatches<A, B>(x: A, y: B, a: seq<A>, b: seq<B>, ka: A -> Key, kb: B -> Key, r: (A,
                                               B) -> bool)
    requires r(x, y) && ka(x) == kb(y) && Match(a, b, ka, kb, r)
    ensures Match(Insert(x, a, ka), Insert(y, b, kb), ka, kb, r)
  {
    if a == [] || Before(ka(x), ka(a[0])) {
      MatchCons(x, y, a, b, ka, kb, r);
    } else {
      MatchTail(a, b, ka, kb, r);
      InsertMatches(x, y, a[1..], b[1..], ka, kb, r);
      MatchCons(a[0], b[0], Insert(x, a[1..], ka), Insert(y, b[1..], kb), ka, kb, r);
    }
  }

  /** Lists that match still match, item by item, once sorted. */
  lemma {:induction false} SortMatches<A, B>(a: seq<A>, b: seq<B>, ka: A -> Key, kb: B -> Key, r: (A, B) -> bool)
    requires Match(a, b, ka, kb, r)
    ensures Match(Sort(a, ka), Sort(b, kb), ka, kb, r)
  {
    if a == [] {
    } else {
      MatchTail(a, b, ka, kb, r);
      SortMatches(a[1..], b[1..], ka, kb, r);
      InsertMatches(a[0], b[0], Sort(a[1..], ka), Sort(b[1..], kb), ka, kb, r);
    }
  }
}
