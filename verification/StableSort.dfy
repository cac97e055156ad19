/** Python's `sorted` and `min` on lists: the stable sort and the first minimum of a preorder. */
module StableSort {
  import opened Common

  ghost predicate TotalPreorder<T(!new)>(le: (T, T) -> bool) {
    && (forall a, b :: le(a, b) || le(b, a))
    && (forall a, b, c :: le(a, b) && le(b, c) ==> le(a, c))
  }

  ghost predicate SortedBy<T(!new)>(le: (T, T) -> bool, s: seq<T>) {
    forall i, j :: 0 <= i < j < |s| ==> le(s[i], s[j])
  }

  function Insert<T>(le: (T, T) -> bool, x: T, s: seq<T>): seq<T> {
    if s == [] || le(x, s[0]) then [x] + s else [s[0]] + Insert(le, x, s[1..])
  }

  function Sort<T>(le: (T, T) -> bool, s: seq<T>): seq<T> {
    if s == [] then [] else Insert(le, s[0], Sort(le, s[1..]))
  }

  /** `min` keeps the first of equal elements. */
  function FirstMin<T>(le: (T, T) -> bool, s: seq<T>): T
    requires s != []
  {
    if |s| == 1 then s[0]
    else
      var m := FirstMin(le, s[1..]);
      if le(s[0], m) then s[0] else m
  }

  function Filter<T>(p: T -> bool, s: seq<T>): seq<T> {
    if s == [] then []
    else if p(s[0]) then [s[0]] + Filter(p, s[1..])
    else Filter(p, s[1..])
  }

  lemma {:induction false} FilterIn<T>(p: T -> bool, s: seq<T>, x: T)
    ensures x in Filter(p, s) <==> x in s && p(x)
  {
    if s != [] {
      FilterIn(p, s[1..], x);
      assert s == [s[0]] + s[1..];
    }
  }

  lemma {:induction false} FilterFilter<T>(p: T -> bool, q: T -> bool, s: seq<T>)
    ensures Filter(p, Filter(q, s)) == Filter(q, Filter(p, s))
  {
    if s != [] {
      FilterFilter(p, q, s[1..]);
      FilterCons(p, s[0], Filter(q, s[1..]));
      FilterCons(q, s[0], Filter(p, s[1..]));
    }
  }

  lemma FilterCons<T>(p: T -> bool, x: T, s: seq<T>)
    ensures Filter(p, [x] + s) == if p(x) then [x] + Filter(p, s) else Filter(p, s)
  {
    assert ([x] + s)[1..] == s;
  }

  /** Where a kept element was before, behind no other than those still before it. */
  lemma {:induction false} FilterAt<T>(p: T -> bool, s: seq<T>, k: nat) returns (n: nat)
    requires k < |Filter(p, s)|
    ensures n < |s| && s[n] == Filter(p, s)[k]
    ensures forall j :: 0 <= j < n && p(s[j]) ==> s[j] in Filter(p, s)[..k]
  {
    var rest := s[1..];
    if !p(s[0]) {
      var m := FilterAt(p, rest, k);
      n := m + 1;
      assert forall j :: 0 < j < n ==> s[j] == rest[j - 1];
    } else if k == 0 {
      n := 0;
    } else {
      var m := FilterAt(p, rest, k - 1);
      n := m + 1;
      assert Filter(p, s)[..k] == [s[0]] + Filter(p, rest)[..k - 1];
      assert forall j :: 0 < j < n ==> s[j] == rest[j - 1];
    }
  }

  lemma {:induction false} FilterCount<T(!new)>(p: T -> bool, s: seq<T>, x: T)
    ensures multiset(Filter(p, s))[x] == if p(x) then multiset(s)[x] else 0
  {
    if s != [] {
      FilterCount(p, s[1..], x);
      assert s == [s[0]] + s[1..];
    }
  }

  // ------------------------------------------------------------ sorting

  lemma InsertIn<T(!new)>(le: (T, T) -> bool, x: T, s: seq<T>, y: T)
    requires multiset(Insert(le, x, s)) == multiset([x] + s)
    ensures y in Insert(le, x, s) <==> y == x || y in s
  {
    assert y in Insert(le, x, s) <==> y in multiset(Insert(le, x, s));
    assert y in [x] + s <==> y in multiset([x] + s);
  }

  lemma SortedCons<T(!new)>(le: (T, T) -> bool, x: T, s: seq<T>)
    requires SortedBy(le, s) && forall y :: y in s ==> le(x, y)
    ensures SortedBy(le, [x] + s)
  {
  }

  lemma BelowAll<T(!new)>(le: (T, T) -> bool, x: T, s: seq<T>)
    requires TotalPreorder(le) && SortedBy(le, s) && s != [] && le(x, s[0])
    ensures forall y :: y in s ==> le(x, y)
  {
    forall y | y in s ensures le(x, y) {
      var i :| 0 <= i < |s| && s[i] == y;
      assert i == 0 || le(s[0], s[i]);
    }
  }

  lemma {:induction false} InsertSorts<T(!new)>(le: (T, T) -> bool, x: T, s: seq<T>)
    requires TotalPreorder(le) && SortedBy(le, s)
    ensures SortedBy(le, Insert(le, x, s))
    ensures multiset(Insert(le, x, s)) == multiset([x] + s)
  {
    if s == [] {
      hide TotalPreorder;
    } else if le(x, s[0]) {
      BelowAll(le, x, s);
      hide TotalPreorder, SortedBy;
      SortedCons(le, x, s);
    } else {
      assert le(s[0], x) && le(s[0], s[0]);
      BelowAll(le, s[0], s);
      SortedTail(le, s);
      hide TotalPreorder, SortedBy;
      InsertSorts(le, x, s[1..]);
      var t := Insert(le, x, s[1..]);
      forall y | y in t ensures le(s[0], y) {
        InsertIn(le, x, s[1..], y);
      }
      SortedCons(le, s[0], t);
      assert s == [s[0]] + s[1..];
    }
  }

  lemma SortedTail<T(!new)>(le: (T, T) -> bool, s: seq<T>)
    requires SortedBy(le, s) && s != []
    ensures SortedBy(le, s[1..])
  {
  }

  lemma {:induction false} SortSorts<T(!new)>(le: (T, T) -> bool, s: seq<T>)
    requires TotalPreorder(le)
    ensures SortedBy(le, Sort(le, s)) && multiset(Sort(le, s)) == multiset(s)
  {
    if s != [] {
      SortSorts(le, s[1..]);
      InsertSorts(le, s[0], Sort(le, s[1..]));
      assert s == [s[0]] + s[1..];
    }
  }

  lemma SortIn<T(!new)>(le: (T, T) -> bool, s: seq<T>, x: T)
    requires TotalPreorder(le)
    ensures x in Sort(le, s) <==> x in s
  {
    SortSorts(le, s);
    assert x in Sort(le, s) <==> x in multiset(Sort(le, s));
    assert x in s <==> x in multiset(s);
  }

  lemma {:induction false} InsertHead<T>(le: (T, T) -> bool, x: T, s: seq<T>)
    ensures Insert(le, x, s) != []
    ensures Insert(le, x, s)[0] == if s == [] || le(x, s[0]) then x else s[0]
  {
  }

  /** The first element after a stable sort is the one `min` returns. */
  lemma {:induction false} SortHead<T>(le: (T, T) -> bool, s: seq<T>)
    requires s != []
    ensures Sort(le, s) != [] && Sort(le, s)[0] == FirstMin(le, s)
  {
    InsertHead(le, s[0], Sort(le, s[1..]));
    if |s| > 1 {
      SortHead(le, s[1..]);
    }
  }

  /** `FirstMin` sits at position `k`, and everything before it is strictly greater. */
  ghost predicate FirstMinAt<T(!new)>(le: (T, T) -> bool, s: seq<T>, k: nat)
    requires k < |s|
  {
    s[k] == FirstMin(le, s) && forall i :: 0 <= i < k ==> !le(s[i], s[k])
  }

  /** `FirstMin` is a minimum, and the first one. */
  lemma {:induction false} FirstMinIsFirst<T(!new)>(le: (T, T) -> bool, s: seq<T>) returns (k: nat)
    requires TotalPreorder(le) && s != []
    ensures forall i :: 0 <= i < |s| ==> le(FirstMin(le, s), s[i])
    ensures k < |s| && FirstMinAt(le, s, k)
  {
    if |s| == 1 {
      return 0;
    }
    var rest := s[1..];
    k := FirstMinIsFirst(le, rest);
    assert forall i :: 0 < i < |s| ==> s[i] == rest[i - 1];
    k := if le(s[0], rest[k]) then 0 else k + 1;
  }

  lemma BelowFiltered<T(!new)>(le: (T, T) -> bool, p: T -> bool, x: T, s: seq<T>)
    requires TotalPreorder(le) && SortedBy(le, s) && (s == [] || le(x, s[0]))
    ensures Filter(p, s) == [] || le(x, Filter(p, s)[0])
  {
    if Filter(p, s) != [] {
      FilterIn(p, s, Filter(p, s)[0]);
      BelowAll(le, x, s);
    }
  }

  lemma InsertBehind<T>(le: (T, T) -> bool, x: T, head: T, s: seq<T>)
    requires !le(x, head)
    ensures Insert(le, x, [head] + s) == [head] + Insert(le, x, s)
  {
    assert ([head] + s)[1..] == s;
  }

  lemma {:induction false} FilterInsert<T(!new)>(le: (T, T) -> bool, p: T -> bool, x: T, s: seq<T>)
    requires TotalPreorder(le) && SortedBy(le, s)
    ensures Filter(p, Insert(le, x, s)) == if p(x) then Insert(le, x, Filter(p, s)) else Filter(p, s)
  {
    hide TotalPreorder, SortedBy;
    if s == [] || le(x, s[0]) {
      FilterCons(p, x, s);
      BelowFiltered(le, p, x, s);
    } else {
      SortedTail(le, s);
      FilterInsert(le, p, x, s[1..]);
      FilterCons(p, s[0], Insert(le, x, s[1..]));
      InsertBehind(le, x, s[0], Filter(p, s[1..]));
    }
  }

  /** A stable sort commutes with dropping elements. */
  lemma {:induction false} FilterSort<T(!new)>(le: (T, T) -> bool, p: T -> bool, s: seq<T>)
    requires TotalPreorder(le)
    ensures Filter(p, Sort(le, s)) == Sort(le, Filter(p, s))
  {
    if s != [] {
      FilterSort(le, p, s[1..]);
      SortSorts(le, s[1..]);
      FilterInsert(le, p, s[0], Sort(le, s[1..]));
      FilterCons(p, s[0], s[1..]);
    }
  }

  /** Two sorted lists with the same elements are equal when ties are between equal elements. */
  lemma {:induction false} SortedUnique<T(!new)>(le: (T, T) -> bool, s: seq<T>, t: seq<T>)
    requires SortedBy(le, s) && SortedBy(le, t) && multiset(s) == multiset(t)
    requires forall x, y :: x in s && y in s && le(x, y) && le(y, x) ==> x == y
    ensures s == t
  {
    assert |multiset(s)| == |multiset(t)|;
    if s != [] {
      HeadBefore(le, s, t);
      HeadBefore(le, t, s);
      MultisetTail(s);
      MultisetTail(t);
      assert s[0] == t[0] by {
        assert t[0] in multiset(s);
      }
      SortedTail(le, s);
      SortedTail(le, t);
      hide SortedBy;
      SortedUnique(le, s[1..], t[1..]);
    }
  }

  lemma MultisetTail<T>(s: seq<T>)
    requires s != []
    ensures multiset(s[1..]) == multiset(s) - multiset{s[0]}
    ensures s == [s[0]] + s[1..]
  {
    assert s == [s[0]] + s[1..];
  }

  lemma HeadBefore<T(!new)>(le: (T, T) -> bool, s: seq<T>, t: seq<T>)
    requires SortedBy(le, s) && multiset(s) == multiset(t) && s != [] && t != []
    ensures s[0] == t[0] || le(s[0], t[0])
  {
    assert t[0] in multiset(s);
    var i :| 0 <= i < |s| && s[i] == t[0];
  }

  /** With no two different elements tied, sorting forgets the order of the input. */
  lemma SortForgetsOrder<T(!new)>(le: (T, T) -> bool, s: seq<T>, t: seq<T>)
    requires TotalPreorder(le) && multiset(s) == multiset(t)
    requires forall x, y :: x in s && y in s && le(x, y) && le(y, x) ==> x == y
    ensures Sort(le, s) == Sort(le, t)
  {
    SortSorts(le, s);
    SortSorts(le, t);
    forall x | x in Sort(le, s) ensures x in s {
      SortIn(le, s, x);
    }
    SortedUnique(le, Sort(le, s), Sort(le, t));
  }

  // ------------------------------------------------------------ the only stable sort

  function Tied<T>(le: (T, T) -> bool, x: T): T -> bool {
    y => le(x, y) && le(y, x)
  }

  /** Ties keep the order they have in `s`. */
  ghost predicate SameTies<T(!new)>(le: (T, T) -> bool, s: seq<T>, t: seq<T>) {
    forall x :: Filter(Tied(le, x), s) == Filter(Tied(le, x), t)
  }

  lemma {:induction false} StableUnique<T(!new)>(le: (T, T) -> bool, s: seq<T>, t: seq<T>)
    requires TotalPreorder(le) && SortedBy(le, s) && SortedBy(le, t) && SameTies(le, s, t)
    ensures s == t
  {
    if t != [] {
      TiesMeet(le, t, s, t[0]);
    }
    if s != [] {
      TiesMeet(le, s, t, s[0]);
      assert s == [s[0]] + s[1..] && t == [t[0]] + t[1..];
      SameHead(le, s[0], s[1..], t[0], t[1..]);
      forall x ensures Filter(Tied(le, x), s[1..]) == Filter(Tied(le, x), t[1..]) {
        assert Filter(Tied(le, x), s) == Filter(Tied(le, x), t);
        DropHead(Tied(le, x), s[0], s[1..], t[1..]);
      }
      StableUnique(le, s[1..], t[1..]);
    }
  }

  lemma SameHead<T(!new)>(le: (T, T) -> bool, x: T, s: seq<T>, y: T, t: seq<T>)
    requires TotalPreorder(le) && SameTies(le, [x] + s, [y] + t) && le(x, y) && le(y, x)
    ensures x == y
  {
    assert le(x, x);
    var tied := Tied(le, x);
    FilterCons(tied, x, s);
    FilterCons(tied, y, t);
    assert Filter(tied, [x] + s)[0] == Filter(tied, [y] + t)[0];
  }

  lemma DropHead<T>(p: T -> bool, x: T, s: seq<T>, t: seq<T>)
    requires Filter(p, [x] + s) == Filter(p, [x] + t)
    ensures Filter(p, s) == Filter(p, t)
  {
    FilterCons(p, x, s);
    FilterCons(p, x, t);
    var n := if p(x) then 1 else 0;
    assert Filter(p, s) == Filter(p, [x] + s)[n..];
    assert Filter(p, t) == Filter(p, [x] + t)[n..];
  }

  lemma TiesMeet<T(!new)>(le: (T, T) -> bool, s: seq<T>, t: seq<T>, x: T)
    requires TotalPreorder(le) && SortedBy(le, t) && SameTies(le, s, t) && x in s
    ensures t != [] && le(t[0], x)
  {
    FilterIn(Tied(le, x), s, x);
    FilterIn(Tied(le, x), t, x);
    var i :| 0 <= i < |t| && t[i] == x;
  }

  lemma {:induction false} SortKeepsTies<T(!new)>(le: (T, T) -> bool, s: seq<T>, x: T)
    requires TotalPreorder(le)
    ensures Filter(Tied(le, x), Sort(le, s)) == Filter(Tied(le, x), s)
  {
    FilterSort(le, Tied(le, x), s);
    var ties := Filter(Tied(le, x), s);
    forall y | y in ties ensures Tied(le, x)(y) {
      FilterIn(Tied(le, x), s, y);
    }
    SortOfTied(le, ties, x);
  }

  lemma {:induction false} SortOfTied<T(!new)>(le: (T, T) -> bool, s: seq<T>, x: T)
    requires TotalPreorder(le) && forall y :: y in s ==> Tied(le, x)(y)
    ensures Sort(le, s) == s
  {
    if s != [] {
      SortOfTied(le, s[1..], x);
      assert s == [s[0]] + s[1..];
      if |s| > 1 {
        assert s[1] in s && s[0] in s;
      }
    }
  }

  /** Whatever algorithm sorts: a sorted list that keeps the order of ties is `Sort(s)`. */
  lemma SortIsTheStableSort<T(!new)>(le: (T, T) -> bool, s: seq<T>, t: seq<T>)
    requires TotalPreorder(le)
    ensures SortedBy(le, t) && SameTies(le, s, t) <==> t == Sort(le, s)
  {
    SortSorts(le, s);
    forall x ensures Filter(Tied(le, x), Sort(le, s)) == Filter(Tied(le, x), s) {
      SortKeepsTies(le, s, x);
    }
    if SortedBy(le, t) && SameTies(le, s, t) {
      forall x ensures Filter(Tied(le, x), t) == Filter(Tied(le, x), Sort(le, s)) {
        assert Filter(Tied(le, x), s) == Filter(Tied(le, x), t);
      }
      StableUnique(le, t, Sort(le, s));
    }
  }
}
