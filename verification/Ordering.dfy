// sort.SliceStable, as the insertion of every element into the sorted rest.

module Ordering {
  ghost predicate TotalPreorder<T(!new)>(leq: (T, T) -> bool) {
    && (forall x, y :: leq(x, y) || leq(y, x))
    && (forall x, y, z :: leq(x, y) && leq(y, z) ==> leq(x, z))
  }

  ghost predicate Sorted<T>(s: seq<T>, leq: (T, T) -> bool) {
    forall i, j :: 0 <= i < j < |s| ==> leq(s[i], s[j])
  }

  function Insert<T>(x: T, s: seq<T>, leq: (T, T) -> bool): seq<T> {
    if s == [] || leq(x, s[0]) then [x] + s else [s[0]] + Insert(x, s[1..], leq)
  }

  function StableSort<T>(s: seq<T>, leq: (T, T) -> bool): seq<T> {
    if s == [] then [] else Insert(s[0], StableSort(s[1..], leq), leq)
  }

  lemma {:induction false} InsertAdds<T>(x: T, s: seq<T>, leq: (T, T) -> bool)
    ensures multiset(Insert(x, s, leq)) == multiset{x} + multiset(s)
  {
    if s != [] && !leq(x, s[0]) {
      InsertAdds(x, s[1..], leq);
      assert s == [s[0]] + s[1..];
    }
  }

  lemma {:induction false} InsertKeepsSorted<T(!new)>(x: T, s: seq<T>, leq: (T, T) -> bool)
    requires TotalPreorder(leq) && Sorted(s, leq)
    ensures Sorted(Insert(x, s, leq), leq)
  {
    if s != [] && !leq(x, s[0]) {
      var rest := Insert(x, s[1..], leq);
      InsertKeepsSorted(x, s[1..], leq);
      InsertAdds(x, s[1..], leq);
      forall j | 0 <= j < |rest| ensures leq(s[0], rest[j]) {
        assert rest[j] in multiset(rest);
        assert rest[j] == x || rest[j] in s[1..];
      }
    }
  }

  /** The result is sorted and holds exactly the elements of the input. */
  lemma {:induction false} StableSortSorts<T(!new)>(s: seq<T>, leq: (T, T) -> bool)
    requires TotalPreorder(leq)
    ensures Sorted(StableSort(s, leq), leq)
    ensures multiset(StableSort(s, leq)) == multiset(s)
    ensures |StableSort(s, leq)| == |s|
  {
    if s != [] {
      StableSortSorts(s[1..], leq);
      InsertKeepsSorted(s[0], StableSort(s[1..], leq), leq);
      InsertAdds(s[0], StableSort(s[1..], leq), leq);
      assert s == [s[0]] + s[1..];
    }
    assert |multiset(StableSort(s, leq))| == |multiset(s)|;
  }

  lemma SameElements<T>(a: seq<T>, b: seq<T>)
    requires multiset(a) == multiset(b)
    ensures |a| == |b| && forall x :: x in a <==> x in b
  {
    assert |multiset(a)| == |multiset(b)|;
    forall x ensures x in a <==> x in b {
      assert x in a <==> x in multiset(a);
      assert x in b <==> x in multiset(b);
    }
  }

  lemma RepeatedIsCounted<T>(s: seq<T>, i: nat, j: nat)
    requires i < j < |s| && s[i] == s[j]
    ensures multiset(s)[s[i]] >= 2
  {
    assert s == s[..j] + s[j..];
    assert s[..j][i] in s[..j] && s[j..][0] in s[j..];
  }

  lemma {:induction false} CountedIsRepeated<T>(s: seq<T>, x: T) returns (i: nat, j: nat)
    requires multiset(s)[x] >= 2
    ensures i < j < |s| && s[i] == x && s[j] == x
  {
    assert s == s[..|s| - 1] + [s[|s| - 1]];
    if s[|s| - 1] == x {
      j := |s| - 1;
      assert x in s[..j];
      i :| 0 <= i < j && s[i] == x;
    } else {
      i, j := CountedIsRepeated(s[..|s| - 1], x);
    }
  }

  // ---------------------------------------------------------------- filtering

  function Kept<T>(s: seq<T>, keep: T -> bool): seq<T> {
    if s == [] then [] else (if keep(s[0]) then [s[0]] else []) + Kept(s[1..], keep)
  }

  lemma {:induction false} KeptConcat<T>(a: seq<T>, b: seq<T>, keep: T -> bool)
    ensures Kept(a + b, keep) == Kept(a, keep) + Kept(b, keep)
  {
    if a == [] {
      assert a + b == b;
    } else {
      KeptConcat(a[1..], b, keep);
      assert (a + b)[0] == a[0] && (a + b)[1..] == a[1..] + b;
      var first := if keep(a[0]) then [a[0]] else [];
      assert (first + Kept(a[1..], keep)) + Kept(b, keep) == first + (Kept(a[1..], keep) + Kept(b, keep));
    }
  }

  lemma {:induction false} KeptSound<T(!new)>(s: seq<T>, keep: T -> bool)
    ensures forall x :: x in Kept(s, keep) <==> x in s && keep(x)
  {
    if s != [] {
      KeptSound(s[1..], keep);
      assert s == [s[0]] + s[1..];
    }
  }

  // A stricter filter may be applied to what a looser one left.
  lemma {:induction false} KeptTwice<T(!new)>(s: seq<T>, loose: T -> bool, strict: T -> bool)
    requires forall x :: strict(x) ==> loose(x)
    ensures Kept(Kept(s, loose), strict) == Kept(s, strict)
  {
    if s != [] {
      KeptTwice(s[1..], loose, strict);
      var rest := Kept(s[1..], loose);
      assert ([s[0]] + rest)[1..] == rest;
      assert [] + rest == rest;
    }
  }

  lemma {:induction false} KeptAllOrNone<T>(s: seq<T>, keep: T -> bool)
    ensures (forall x :: x in s ==> keep(x)) ==> Kept(s, keep) == s
    ensures (forall x :: x in s ==> !keep(x)) ==> Kept(s, keep) == []
  {
    if s != [] {
      KeptAllOrNone(s[1..], keep);
      assert s == [s[0]] + s[1..];
    }
  }

  lemma KeptSuffix<T>(s: seq<T>, k: nat, keep: T -> bool)
    requires k <= |s| && forall i :: 0 <= i < |s| ==> (keep(s[i]) <==> k <= i)
    ensures Kept(s, keep) == s[k..]
  {
    assert s == s[..k] + s[k..];
    KeptConcat(s[..k], s[k..], keep);
    KeptAllOrNone(s[..k], keep);
    KeptAllOrNone(s[k..], keep);
  }

  lemma {:induction false} KeptOfInsert<T(!new)>(x: T, s: seq<T>, leq: (T, T) -> bool, keep: T -> bool)
    requires TotalPreorder(leq) && Sorted(s, leq)
    ensures Kept(Insert(x, s, leq), keep) ==
            if keep(x) then Insert(x, Kept(s, keep), leq) else Kept(s, keep)
  {
    if s == [] || leq(x, s[0]) {
      assert ([x] + s)[1..] == s;
      var rest := Kept(s, keep);
      KeptSound(s, keep);
      if rest != [] {
        assert rest[0] in s;
        var k :| 0 <= k < |s| && s[k] == rest[0];
        assert k > 0 ==> leq(s[0], s[k]);
        assert leq(x, rest[0]);
      }
    } else {
      var moved := Insert(x, s[1..], leq);
      assert ([s[0]] + moved)[1..] == moved;
      KeptOfInsert(x, s[1..], leq, keep);
      var rest := Kept(s[1..], keep);
      assert ([s[0]] + rest)[1..] == rest;
      assert [] + rest == rest && [] + Kept(moved, keep) == Kept(moved, keep);
    }
  }

  /** Filtering before sorting gives what filtering after it does. */
  lemma {:induction false} KeptCommutesWithSort<T(!new)>(s: seq<T>, leq: (T, T) -> bool, keep: T -> bool)
    requires TotalPreorder(leq)
    ensures StableSort(Kept(s, keep), leq) == Kept(StableSort(s, leq), keep)
  {
    if s != [] {
      KeptCommutesWithSort(s[1..], leq, keep);
      StableSortSorts(s[1..], leq);
      KeptOfInsert(s[0], StableSort(s[1..], leq), leq, keep);
      var rest := Kept(s[1..], keep);
      assert ([s[0]] + rest)[1..] == rest;
      assert [] + rest == rest;
    }
  }

  /** Sorting what was kept brings to the front the first kept element that no other kept one comes before. */
  lemma {:induction false} FirstOfSort<T(!new)>(s: seq<T>, leq: (T, T) -> bool, keep: T -> bool) returns (i: nat)
    requires TotalPreorder(leq) && Kept(s, keep) != []
    ensures i < |s| && keep(s[i]) && StableSort(Kept(s, keep), leq) != [] && StableSort(Kept(s, keep), leq)[0] == s[i]
    ensures forall j :: 0 <= j < |s| && keep(s[j]) ==> leq(s[i], s[j]) && (j < i ==> !leq(s[j], s[i]))
  {
    var rest := Kept(s[1..], keep);
    assert forall j :: 1 <= j < |s| ==> s[j] == s[1..][j - 1];
    assert leq(s[0], s[0]);
    if rest == [] {
      i := 0;
      KeptSound(s[1..], keep);
      assert Kept(s, keep) == [s[0]] + rest;
      forall j | 1 <= j < |s| ensures !keep(s[j]) {
        assert s[1..][j - 1] in s[1..];
      }
    } else {
      var k := FirstOfSort(s[1..], leq, keep);
      i := if keep(s[0]) && leq(s[0], s[1..][k]) then 0 else k + 1;
      assert ([s[0]] + rest)[1..] == rest;
      assert Kept(s, keep) == if keep(s[0]) then [s[0]] + rest else rest;
    }
  }

  predicate Distinct<T>(s: seq<T>, key: T -> int) {
    forall i, j | 0 <= i < j < |s| :: key(s[i]) != key(s[j])
  }

  lemma {:induction false} KeptDistinct<T(!new)>(s: seq<T>, key: T -> int, keep: T -> bool)
    requires Distinct(s, key)
    ensures Distinct(Kept(s, keep), key)
  {
    if s != [] {
      KeptDistinct(s[1..], key, keep);
      KeptSound(s[1..], keep);
      var rest := Kept(s[1..], keep);
      forall i | 0 <= i < |rest| ensures key(rest[i]) != key(s[0]) {
        assert rest[i] in rest && rest[i] in s[1..];
        var k :| 0 <= k < |s[1..]| && s[1..][k] == rest[i];
        assert s[k + 1] == rest[i];
      }
    }
  }

  lemma SortDistinct<T>(a: seq<T>, b: seq<T>, key: T -> int)
    requires multiset(a) == multiset(b) && Distinct(a, key)
    ensures Distinct(b, key)
  {
    SameElements(a, b);
    forall i, j | 0 <= i < j < |b| ensures key(b[i]) != key(b[j]) {
      assert b[i] in a && b[j] in a;
      if b[i] == b[j] {
        RepeatedIsCounted(b, i, j);
        var k, l := CountedIsRepeated(a, b[i]);
      }
    }
  }
}
