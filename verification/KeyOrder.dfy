/**
 * The ascending order of std::string keys. std::map iterates in this order and
 * std::sort compares with it, so every loop over a map visits the least pending
 * key next.
 */
module KeyOrder {
  import opened Common

  /** Lexicographic, strict: a proper prefix comes first. */
  predicate TextLess(a: string, b: string) {
    b != [] && (a == [] || a[0] < b[0] || (a[0] == b[0] && TextLess(a[1..], b[1..])))
  }

  lemma {:induction false} TextIrreflexive(a: string)
    ensures !TextLess(a, a)
  {
    if a == [] {
    } else {
      TextIrreflexive(a[1..]);
    }
  }

  lemma {:induction false} TextTransitive(a: string, b: string, c: string)
    requires TextLess(a, b) && TextLess(b, c)
    ensures TextLess(a, c)
  {
    if a != [] && a[0] == b[0] == c[0] { TextTransitive(a[1..], b[1..], c[1..]); }
  }

  lemma {:induction false} TextTrichotomy(a: string, b: string)
    ensures TextLess(a, b) || a == b || TextLess(b, a)
  {
    if a != [] && b != [] && a[0] == b[0] {
      TextTrichotomy(a[1..], b[1..]);
      if a[1..] == b[1..] { assert a == [a[0]] + a[1..] == b; }
    }
  }

  predicate Less(a: Id, b: Id) { TextLess(a.text, b.text) }

  predicate LessEq(a: Id, b: Id) { a == b || Less(a, b) }

  lemma Irreflexive(a: Id)
    ensures !Less(a, a)
  {
    TextIrreflexive(a.text);
  }

  lemma Transitive(a: Id, b: Id, c: Id)
    requires Less(a, b) && Less(b, c)
    ensures Less(a, c)
  {
    TextTransitive(a.text, b.text, c.text);
  }

  lemma Trichotomy(a: Id, b: Id)
    ensures Less(a, b) || a == b || Less(b, a)
  {
    TextTrichotomy(a.text, b.text);
  }

  lemma Asymmetric(a: Id, b: Id)
    requires Less(a, b)
    ensures !Less(b, a)
  {
    if Less(b, a) { Transitive(a, b, a); Irreflexive(a); }
  }

  predicate IsLeast(m: Id, s: set<Id>) {
    m in s && forall x | x in s :: LessEq(m, x)
  }

  lemma {:induction false} LeastExists(s: set<Id>)
    requires s != {}
    ensures exists m :: IsLeast(m, s)
  {
    var x :| x in s;
    var rest := s - {x};
    assert s == rest + {x};
    if rest == {} {
      assert IsLeast(x, s);
    } else {
      LeastExists(rest);
      var m :| IsLeast(m, rest);
      Trichotomy(x, m);
      if Less(x, m) {
        forall y | y in s ensures LessEq(x, y) {
          if y != x && y != m { assert y in rest; Transitive(x, m, y); }
        }
        assert IsLeast(x, s);
      } else {
        assert IsLeast(m, s);
      }
    }
  }

  lemma LeastUnique(a: Id, b: Id, s: set<Id>)
    requires IsLeast(a, s) && IsLeast(b, s)
    ensures a == b
  {
    if a != b { Asymmetric(a, b); }
  }

  /** The first key of a map whose key set is s. */
  function Least(s: set<Id>): (m: Id)
    requires s != {}
    ensures m in s
  {
    LeastExists(s);
    assert forall a, b | IsLeast(a, s) && IsLeast(b, s) :: a == b by {
      forall a, b | IsLeast(a, s) && IsLeast(b, s) ensures a == b { LeastUnique(a, b, s); }
    }
    var m :| m in s && IsLeast(m, s);
    m
  }

  lemma LeastIsLeast(s: set<Id>)
    requires s != {}
    ensures IsLeast(Least(s), s)
  {
    LeastExists(s);
    forall a, b | IsLeast(a, s) && IsLeast(b, s) ensures a == b { LeastUnique(a, b, s); }
  }

  /** Insertion of one id into an ascending list, duplicates kept. */
  function Insert(x: Id, ks: seq<Id>): seq<Id> {
    if ks == [] then [x]
    else if LessEq(x, ks[0]) then [x] + ks
    else [ks[0]] + Insert(x, ks[1..])
  }

  /** std::sort over ids. */
  function SortIds(ks: seq<Id>): seq<Id> {
    if ks == [] then [] else Insert(ks[0], SortIds(ks[1..]))
  }

  lemma {:induction false} InsertAdds(x: Id, ks: seq<Id>)
    ensures multiset(Insert(x, ks)) == multiset(ks) + multiset{x}
  {
    if ks != [] && !LessEq(x, ks[0]) {
      assert ks == [ks[0]] + ks[1..];
      InsertAdds(x, ks[1..]);
    }
  }

  lemma {:induction false} SortPermutes(ks: seq<Id>)
    ensures multiset(SortIds(ks)) == multiset(ks)
  {
    if ks == [] {
    } else {
      assert ks == [ks[0]] + ks[1..];
      SortPermutes(ks[1..]);
      InsertAdds(ks[0], SortIds(ks[1..]));
    }
  }

  predicate Ascending(ks: seq<Id>) { forall i, j :: 0 <= i < j < |ks| ==> LessEq(ks[i], ks[j]) }

  lemma {:induction false} InsertAscends(x: Id, ks: seq<Id>)
    requires Ascending(ks)
    ensures Ascending(Insert(x, ks))
  {
    if ks == [] {
    } else {
      if LessEq(x, ks[0]) {
        forall j | 0 <= j < |ks| ensures LessEq(x, ks[j]) { LessEqTransitive(x, ks[0], ks[j]); }
      } else {
        Trichotomy(x, ks[0]);
        InsertAscends(x, ks[1..]);
        InsertedFrom(x, ks[1..]);
        forall j | 0 <= j < |Insert(x, ks[1..])| ensures LessEq(ks[0], Insert(x, ks[1..])[j]) {
          assert Insert(x, ks[1..])[j] in Insert(x, ks[1..]);
        }
      }
    }
  }

  lemma LessEqTransitive(a: Id, b: Id, c: Id)
    requires LessEq(a, b) && (b == c || LessEq(b, c))
    ensures LessEq(a, c)
  {
    if a != b && b != c { Transitive(a, b, c); }
  }

  lemma InsertedFrom(x: Id, ks: seq<Id>)
    ensures forall y :: y in Insert(x, ks) ==> y == x || y in ks
  {
    InsertAdds(x, ks);
    forall y | y in Insert(x, ks) ensures y == x || y in ks {
      assert y in multiset(Insert(x, ks));
    }
  }

  /** The sorted list is ascending and a rearrangement of the given one. */
  lemma {:induction false} SortSorts(ks: seq<Id>)
    ensures Ascending(SortIds(ks)) && multiset(SortIds(ks)) == multiset(ks)
  {
    SortPermutes(ks);
    if ks == [] {
    } else {
      SortSorts(ks[1..]);
      InsertAscends(ks[0], SortIds(ks[1..]));
    }
  }

  lemma {:induction false} InsertCommutes(x: Id, y: Id, ks: seq<Id>)
    ensures Insert(x, Insert(y, ks)) == Insert(y, Insert(x, ks))
  {
    Trichotomy(x, y);
    if x != y { if Less(x, y) { Asymmetric(x, y); } else { Asymmetric(y, x); } }
    if ks == [] {
    } else {
      if LessEq(x, ks[0]) && LessEq(y, ks[0]) {
      } else if LessEq(x, ks[0]) {
        Chain(x, ks[0], y);
      } else if LessEq(y, ks[0]) {
        Chain(y, ks[0], x);
      } else {
        InsertCommutes(x, y, ks[1..]);
      }
    }
  }

  lemma Chain(x: Id, k: Id, y: Id)
    requires LessEq(x, k) && !LessEq(y, k)
    ensures LessEq(x, y) && !LessEq(y, x)
  {
    Trichotomy(y, k);
    if x != k { Transitive(x, k, y); }
    Asymmetric(x, y);
    if y == x { Irreflexive(x); }
  }

  lemma SortCons(x: Id, rest: seq<Id>)
    ensures SortIds([x] + rest) == Insert(x, SortIds(rest))
  {
    assert ([x] + rest)[1..] == rest;
  }

  function Without(a: seq<Id>, i: nat): seq<Id>
    requires i < |a|
  {
    a[..i] + a[i+1..]
  }

  lemma WithoutRemoves(a: seq<Id>, i: nat)
    requires i < |a|
    ensures multiset(Without(a, i)) == multiset(a) - multiset{a[i]}
  {
    assert a == a[..i] + [a[i]] + a[i+1..];
  }

  lemma WithoutCons(x: Id, rest: seq<Id>, i: nat)
    requires i <= |rest|
    ensures Without([x] + rest, i) == if i == 0 then rest else [x] + Without(rest, i - 1)
  {
  }

  lemma {:induction false} SortPullsOut(a: seq<Id>, i: nat)
    requires i < |a|
    ensures SortIds(a) == Insert(a[i], SortIds(Without(a, i)))
  {
    var x, rest := a[0], a[1..];
    assert a == [x] + rest;
    if i == 0 {
      SortCons(x, rest);
      WithoutCons(x, rest, 0);
    } else {
      SortPullsOut(rest, i - 1);
      SortPullsOutOfTail(x, rest, i);
    }
  }

  lemma SortPullsOutOfTail(x: Id, rest: seq<Id>, i: nat)
    requires 0 < i <= |rest|
    requires SortIds(rest) == Insert(rest[i-1], SortIds(Without(rest, i - 1)))
    ensures SortIds([x] + rest) == Insert(rest[i-1], SortIds(Without([x] + rest, i)))
  {
    var tail := Without(rest, i - 1);
    WithoutCons(x, rest, i);
    SortCons(x, rest);
    SortCons(x, tail);
    InsertCommutes(x, rest[i-1], SortIds(tail));
  }

  /** Sorting compares two id lists exactly up to reordering. */
  lemma {:induction false} SortEqualIffPermutation(a: seq<Id>, b: seq<Id>)
    ensures SortIds(a) == SortIds(b) <==> multiset(a) == multiset(b)
    decreases |a|
  {
    SortPermutes(a);
    SortPermutes(b);
    if multiset(a) == multiset(b) {
      assert |a| == |multiset(a)| == |b|;
      if a != [] {
        assert a[0] in multiset(b);
        var i :| 0 <= i < |b| && b[i] == a[0];
        WithoutRemoves(a, 0);
        WithoutRemoves(b, i);
        SortEqualIffPermutation(Without(a, 0), Without(b, i));
        SortPullsOut(a, 0);
        SortPullsOut(b, i);
      }
    }
  }
}
