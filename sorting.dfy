/**
 * `Array.prototype.sort` with a comparator, which ECMAScript requires to be
 * stable. Any two stable sorts agree, so the model uses a stable insertion
 * sort: each later element is placed after every earlier element that does
 * not compare greater than it.
 */
module Sorting {

  /** The comparator is a total preorder: any two elements compare, and "not greater" is transitive. */
  ghost predicate TotalPreorder<T(!new)>(cmp: (T, T) -> int)
  {
    && (forall a, b :: cmp(a, b) <= 0 || cmp(b, a) <= 0)
    && (forall a, b, c {:trigger cmp(a, b), cmp(b, c), cmp(a, c)} ::
          cmp(a, b) <= 0 && cmp(b, c) <= 0 ==> cmp(a, c) <= 0)
  }

  ghost predicate SortedBy<T>(s: seq<T>, cmp: (T, T) -> int)
  {
    forall i, j :: 0 <= i < j < |s| ==> cmp(s[i], s[j]) <= 0
  }

  /** `x` compares not greater than every element of `s`. */
  ghost predicate Minimal<T>(s: seq<T>, cmp: (T, T) -> int, x: T)
  {
    forall j :: 0 <= j < |s| ==> cmp(x, s[j]) <= 0
  }

  /** Places `x` after every element of `r` that does not compare greater than it. */
  function Insert<T>(x: T, r: seq<T>, cmp: (T, T) -> int): (q: seq<T>)
    ensures |q| == |r| + 1
  {
    if r == [] then [x]
    else if cmp(r[0], x) <= 0 then [r[0]] + Insert(x, r[1..], cmp)
    else [x] + r
  }

  /** An insertion holds the elements of `r` and `x`, nothing else. */
  lemma {:induction false} InsertPermutes<T>(x: T, r: seq<T>, cmp: (T, T) -> int)
    ensures multiset(Insert(x, r, cmp)) == multiset(r) + multiset{x}
  {
    if r != [] {
      assert r == [r[0]] + r[1..];
      if cmp(r[0], x) <= 0 {
        InsertPermutes(x, r[1..], cmp);
      }
    }
  }

  /** The stably sorted copy of `s`. */
  function SortBy<T>(s: seq<T>, cmp: (T, T) -> int): (r: seq<T>)
    ensures multiset(r) == multiset(s)
    ensures |r| == |s|
  {
    if s == [] then []
    else
      assert s == s[..|s| - 1] + [s[|s| - 1]];
      InsertPermutes(s[|s| - 1], SortBy(s[..|s| - 1], cmp), cmp);
      Insert(s[|s| - 1], SortBy(s[..|s| - 1], cmp), cmp)
  }

  lemma {:induction false} InsertSorted<T(!new)>(x: T, r: seq<T>, cmp: (T, T) -> int)
    requires TotalPreorder(cmp) && SortedBy(r, cmp)
    ensures SortedBy(Insert(x, r, cmp), cmp)
  {
    if r != [] && cmp(r[0], x) <= 0 {
      InsertSorted(x, r[1..], cmp);
      InsertAfterHead(x, r, cmp);
    } else if r != [] {
      InsertBeforeHead(x, r, cmp);
    }
  }

  /** Every element of an insertion is the inserted one or one of `r`. */
  lemma InsertMember<T>(x: T, r: seq<T>, cmp: (T, T) -> int, j: nat)
    requires j < |Insert(x, r, cmp)|
    ensures Insert(x, r, cmp)[j] == x || Insert(x, r, cmp)[j] in r
  {
    var q := Insert(x, r, cmp);
    InsertPermutes(x, r, cmp);
    assert q[j] in multiset(q);
  }

  /** Inserting behind the head of a sorted `r` keeps it sorted when the rest of the insertion is. */
  lemma InsertAfterHead<T(!new)>(x: T, r: seq<T>, cmp: (T, T) -> int)
    requires SortedBy(r, cmp) && r != [] && cmp(r[0], x) <= 0
    requires SortedBy(Insert(x, r[1..], cmp), cmp)
    ensures SortedBy(Insert(x, r, cmp), cmp)
  {
    var q' := Insert(x, r[1..], cmp);
    forall j | 0 <= j < |q'| ensures cmp(r[0], q'[j]) <= 0 {
      InsertMember(x, r[1..], cmp, j);
      if q'[j] != x {
        var k :| 0 <= k < |r[1..]| && r[1..][k] == q'[j];
        assert r[k + 1] == q'[j];
      }
    }
    ConsSorted(r[0], q', cmp);
    assert Insert(x, r, cmp) == [r[0]] + q';
  }

  /** An element that compares less than the head of a sorted `r` goes first and keeps it sorted. */
  lemma InsertBeforeHead<T(!new)>(x: T, r: seq<T>, cmp: (T, T) -> int)
    requires TotalPreorder(cmp) && SortedBy(r, cmp) && r != [] && cmp(r[0], x) > 0
    ensures SortedBy(Insert(x, r, cmp), cmp)
  {
    assert cmp(x, r[0]) <= 0;
    forall j | 0 < j < |r| ensures cmp(x, r[j]) <= 0 {
      assert cmp(r[0], r[j]) <= 0;
    }
    ConsSorted(x, r, cmp);
    assert Insert(x, r, cmp) == [x] + r;
  }

  /** An element not greater than any of a sorted `r` can go in front of it. */
  lemma ConsSorted<T>(x: T, r: seq<T>, cmp: (T, T) -> int)
    requires SortedBy(r, cmp) && Minimal(r, cmp, x)
    ensures SortedBy([x] + r, cmp)
  {
    var q := [x] + r;
    forall i, j | 0 <= i < j < |q| ensures cmp(q[i], q[j]) <= 0 {
      assert q[j] == r[j - 1];
      if i > 0 {
        assert q[i] == r[i - 1];
      }
    }
  }

  /** The sort orders its output by the comparator. */
  lemma {:induction false} SortSorted<T(!new)>(s: seq<T>, cmp: (T, T) -> int)
    requires TotalPreorder(cmp)
    ensures SortedBy(SortBy(s, cmp), cmp)
  {
    if s != [] {
      SortSorted(s[..|s| - 1], cmp);
      InsertSorted(s[|s| - 1], SortBy(s[..|s| - 1], cmp), cmp);
    }
  }

  /** Inserting `x` keeps the head of `r` unless `x` compares strictly less than it. */
  lemma InsertHead<T>(x: T, r: seq<T>, cmp: (T, T) -> int)
    requires r != []
    ensures Insert(x, r, cmp)[0] == if cmp(r[0], x) <= 0 then r[0] else x
  {
  }

  /** When the new last element is not smaller than the earliest minimal element, that element stays first minimal. */
  lemma HeadKept<T(!new)>(init: seq<T>, x: T, i: nat, cmp: (T, T) -> int)
    requires TotalPreorder(cmp) && i < |init| && Minimal(init, cmp, init[i])
    requires forall j :: 0 <= j < i ==> !Minimal(init, cmp, init[j])
    requires cmp(init[i], x) <= 0
    ensures Minimal(init + [x], cmp, init[i])
    ensures forall j :: 0 <= j < i ==> !Minimal(init + [x], cmp, init[j])
  {
    var s := init + [x];
    forall j | 0 <= j < i ensures !Minimal(s, cmp, init[j]) {
      assert !Minimal(init, cmp, init[j]);
      var k :| 0 <= k < |init| && cmp(init[j], init[k]) > 0;
      assert s[k] == init[k];
    }
  }

  /** When the new last element is strictly smaller than the earliest minimal element, it is the only minimal one. */
  lemma HeadReplaced<T(!new)>(init: seq<T>, x: T, i: nat, cmp: (T, T) -> int)
    requires TotalPreorder(cmp) && i < |init| && Minimal(init, cmp, init[i])
    requires cmp(init[i], x) > 0
    ensures Minimal(init + [x], cmp, x)
    ensures forall j :: 0 <= j < |init| ==> !Minimal(init + [x], cmp, init[j])
  {
    var s, h := init + [x], init[i];
    assert cmp(x, h) <= 0;
    forall k | 0 <= k < |s| ensures cmp(x, s[k]) <= 0 {
      if k < |init| {
        assert cmp(h, init[k]) <= 0;
        assert cmp(x, h) <= 0 && cmp(h, s[k]) <= 0;
      }
    }
    forall j | 0 <= j < |init| ensures !Minimal(s, cmp, init[j]) {
      assert cmp(h, init[j]) <= 0 && cmp(h, x) > 0;
      assert s[|s| - 1] == x && cmp(init[j], x) > 0;
    }
  }

  /**
   * Stability at the head: the first element of the sorted copy is the
   * earliest element of `s` that is not greater than any other.
   */
  lemma {:induction false} SortHead<T(!new)>(s: seq<T>, cmp: (T, T) -> int)
    requires TotalPreorder(cmp) && s != []
    ensures exists i :: 0 <= i < |s| && SortBy(s, cmp)[0] == s[i] && Minimal(s, cmp, s[i])
                        && forall j :: 0 <= j < i ==> !Minimal(s, cmp, s[j])
  {
    var init, x := s[..|s| - 1], s[|s| - 1];
    assert s == init + [x];
    if init == [] {
      assert SortBy(s, cmp) == [x];
      assert Minimal(s, cmp, s[0]);
    } else {
      SortHead(init, cmp);
      var i :| 0 <= i < |init| && SortBy(init, cmp)[0] == init[i] && Minimal(init, cmp, init[i])
               && forall j :: 0 <= j < i ==> !Minimal(init, cmp, init[j]);
      SortHeadStep(init, x, i, cmp);
    }
  }

  /** The head of the sorted copy after appending `x`, from the earliest minimal element before. */
  lemma SortHeadStep<T(!new)>(init: seq<T>, x: T, i: nat, cmp: (T, T) -> int)
    requires TotalPreorder(cmp) && i < |init| && SortBy(init, cmp)[0] == init[i] && Minimal(init, cmp, init[i])
    requires forall j :: 0 <= j < i ==> !Minimal(init, cmp, init[j])
    ensures var s := init + [x];
            exists k :: 0 <= k < |s| && SortBy(s, cmp)[0] == s[k] && Minimal(s, cmp, s[k])
                        && forall j :: 0 <= j < k ==> !Minimal(s, cmp, s[j])
  {
    var s := init + [x];
    var r := SortBy(init, cmp);
    assert s[..|s| - 1] == init;
    assert SortBy(s, cmp) == Insert(x, r, cmp);
    InsertHead(x, r, cmp);
    assert forall j :: 0 <= j < |init| ==> s[j] == init[j];
    if cmp(init[i], x) <= 0 {
      HeadKept(init, x, i, cmp);
      assert SortBy(s, cmp)[0] == s[i];
    } else {
      HeadReplaced(init, x, i, cmp);
      assert SortBy(s, cmp)[0] == s[|s| - 1];
    }
  }
}
