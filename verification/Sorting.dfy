/** Ordered listings: what os.ReadDir, sort.Strings, sort.Slice and slices.SortFunc
    leave behind. A listing of a set of names is unique, so nothing that goes through
    one can depend on the order in which a Go map was ranged over. */
module Sorting {

  /** Go's order on strings: byte by byte, a proper prefix first. */
  predicate StrLeq(a: string, b: string)
    decreases a
  {
    a == "" || (b != "" && (a[0] < b[0] || (a[0] == b[0] && StrLeq(a[1..], b[1..]))))
  }

  /** That is, a is a prefix of b, or it has the smaller character where they first differ. */
  lemma {:induction false} StrLeqMeans(a: string, b: string)
    ensures StrLeq(a, b) <==>
              a <= b || exists k :: 0 <= k < |a| && k < |b| && a[..k] == b[..k] && a[k] < b[k]
    decreases a
  {
    if a != "" && b != "" && a[0] == b[0] {
      StrLeqMeans(a[1..], b[1..]);
      assert a == [a[0]] + a[1..] && b == [b[0]] + b[1..];
      if k :| 0 <= k < |a| && k < |b| && a[..k] == b[..k] && a[k] < b[k] {
        assert k > 0 && a[1..][..k-1] == a[..k][1..] == b[..k][1..] == b[1..][..k-1];
      }
      if k :| 0 <= k < |a[1..]| && k < |b[1..]| && a[1..][..k] == b[1..][..k] && a[1..][k] < b[1..][k] {
        assert a[..k+1] == [a[0]] + a[1..][..k] && b[..k+1] == [b[0]] + b[1..][..k];
      }
    } else if a != "" && b != "" && a[0] < b[0] {
      assert a[..0] == b[..0];
    }
  }

  lemma {:induction false} StrLeqAntisymmetric(a: string, b: string)
    requires StrLeq(a, b) && StrLeq(b, a)
    ensures a == b
    decreases a
  {
    if a != "" {
      StrLeqAntisymmetric(a[1..], b[1..]);
      assert a == [a[0]] + a[1..] && b == [b[0]] + b[1..];
    }
  }

  lemma {:induction false} StrLeqTransitive(a: string, b: string, c: string)
    requires StrLeq(a, b) && StrLeq(b, c)
    ensures StrLeq(a, c)
    decreases a
  {
    if a != "" && a[0] == b[0] == c[0] {
      StrLeqTransitive(a[1..], b[1..], c[1..]);
    }
  }

  lemma {:induction false} StrLeqTotal(a: string, b: string)
    ensures StrLeq(a, b) || StrLeq(b, a)
    decreases a
  {
    if a != "" && b != "" && a[0] == b[0] {
      StrLeqTotal(a[1..], b[1..]);
    }
  }

  /** Total and transitive: all a sort needs to produce a sorted result. */
  ghost predicate Preorder<T(!new)>(leq: (T, T) -> bool) {
    && (forall a, b :: leq(a, b) || leq(b, a))
    && (forall a, b, c :: leq(a, b) && leq(b, c) ==> leq(a, c))
  }

  /** Also antisymmetric: sorted results are then unique. */
  ghost predicate TotalOrder<T(!new)>(leq: (T, T) -> bool) {
    && Preorder(leq)
    && (forall a, b :: leq(a, b) && leq(b, a) ==> a == b)
  }

  ghost predicate Sorted<T>(leq: (T, T) -> bool, xs: seq<T>) {
    forall i, j | 0 <= i < j < |xs| :: leq(xs[i], xs[j])
  }

  /** StrLeq is a total order. */
  lemma StringOrder()
    ensures TotalOrder(StrLeq)
  {
    forall a, b ensures StrLeq(a, b) || StrLeq(b, a) { StrLeqTotal(a, b); }
    forall a, b, c | StrLeq(a, b) && StrLeq(b, c) ensures StrLeq(a, c) { StrLeqTransitive(a, b, c); }
    forall a, b | StrLeq(a, b) && StrLeq(b, a) ensures a == b { StrLeqAntisymmetric(a, b); }
  }

  function Insert<T>(leq: (T, T) -> bool, x: T, xs: seq<T>): (ys: seq<T>)
    ensures multiset(ys) == multiset(xs) + multiset{x}
  {
    if xs == [] then [x]
    else if leq(x, xs[0]) then
      assert [x] + xs == [x] + xs[..];
      [x] + xs
    else
      assert xs == [xs[0]] + xs[1..];
      [xs[0]] + Insert(leq, x, xs[1..])
  }

  /** The library sort, as a function of its input. */
  function Sort<T>(leq: (T, T) -> bool, xs: seq<T>): (ys: seq<T>)
    ensures multiset(ys) == multiset(xs)
  {
    if xs == [] then []
    else
      assert xs == [xs[0]] + xs[1..];
      Insert(leq, xs[0], Sort(leq, xs[1..]))
  }

  lemma {:induction false} InsertSorted<T(!new)>(leq: (T, T) -> bool, x: T, xs: seq<T>)
    requires Preorder(leq) && Sorted(leq, xs)
    ensures Sorted(leq, Insert(leq, x, xs))
  {
    if xs != [] && !leq(x, xs[0]) {
      InsertSorted(leq, x, xs[1..]);
      var rest := Insert(leq, x, xs[1..]);
      forall j | 0 <= j < |rest| ensures leq(xs[0], rest[j]) {
        assert rest[j] in multiset(rest);
        assert rest[j] in multiset(xs[1..]) + multiset{x};
        if rest[j] != x {
          assert rest[j] in xs[1..];
        }
      }
    }
  }

  /** Sorting sorts. */
  lemma {:induction false} SortSorted<T(!new)>(leq: (T, T) -> bool, xs: seq<T>)
    requires Preorder(leq)
    ensures Sorted(leq, Sort(leq, xs))
  {
    if xs != [] {
      SortSorted(leq, xs[1..]);
      InsertSorted(leq, xs[0], Sort(leq, xs[1..]));
    }
  }

  /** xs holds exactly the elements of bag, in order. */
  ghost predicate Arranges<T(!new)>(leq: (T, T) -> bool, xs: seq<T>, bag: multiset<T>) {
    Sorted(leq, xs) && multiset(xs) == bag
  }

  /** The head of an arrangement is least, and the rest arranges what is left. */
  lemma ArrangedHead<T(!new)>(leq: (T, T) -> bool, xs: seq<T>, bag: multiset<T>)
    requires Preorder(leq) && Arranges(leq, xs, bag) && xs != []
    ensures xs[0] in bag && forall x | x in bag :: leq(xs[0], x)
    ensures Arranges(leq, xs[1..], bag - multiset{xs[0]})
  {
    assert xs == [xs[0]] + xs[1..];
    forall x | x in bag ensures leq(xs[0], x) {
      var i :| 0 <= i < |xs| && xs[i] == x;
      assert leq(xs[0], xs[0]);
    }
  }

  /** Under a total order there is only one, found head by head. */
  lemma {:induction false} OneArrangement<T(!new)>(leq: (T, T) -> bool, bag: multiset<T>, xs: seq<T>, ys: seq<T>)
    requires TotalOrder(leq) && Arranges(leq, xs, bag) && Arranges(leq, ys, bag)
    ensures xs == ys
    decreases |bag|
  {
    if |bag| > 0 {
      ArrangedHead(leq, xs, bag);
      ArrangedHead(leq, ys, bag);
      assert xs[0] == ys[0];
      OneArrangement(leq, bag - multiset{xs[0]}, xs[1..], ys[1..]);
    }
  }

  /** Sorting forgets the order of its input. */
  lemma SortPermutation<T(!new)>(leq: (T, T) -> bool, xs: seq<T>, ys: seq<T>)
    requires TotalOrder(leq) && multiset(xs) == multiset(ys)
    ensures Sort(leq, xs) == Sort(leq, ys)
  {
    SortSorted(leq, xs);
    SortSorted(leq, ys);
    OneArrangement(leq, multiset(xs), Sort(leq, xs), Sort(leq, ys));
  }

  lemma Unrepeated<T>(xs: seq<T>, i: nat, j: nat)
    requires i < j < |xs| && multiset(xs)[xs[i]] <= 1
    ensures xs[i] != xs[j]
  {
    assert xs == xs[..i] + [xs[i]] + xs[i+1..j] + [xs[j]] + xs[j+1..];
  }

  /** ns lists exactly the names in s, each once, in increasing order. */
  ghost predicate IsListing(ns: seq<string>, s: set<string>) { Arranges(StrLeq, ns, multiset(s)) }

  /** The one listing of a set of names. */
  ghost function Listing(s: set<string>): (ns: seq<string>)
    ensures IsListing(ns, s)
    ensures |ns| == |s|
    ensures forall n :: n in ns <==> n in s
    ensures forall i, j :: 0 <= i < j < |ns| ==> ns[i] != ns[j]
    decreases |s|
  {
    var ns :=
      if s == {} then [] else (
        var x :| x in s;
        assert multiset(s) == multiset(s - {x}) + multiset{x};
        StringOrder();
        InsertSorted(StrLeq, x, Listing(s - {x}));
        Insert(StrLeq, x, Listing(s - {x}))
      );
    ListingFacts(ns, s);
    ns
  }

  lemma ListingFacts(ns: seq<string>, s: set<string>)
    requires multiset(ns) == multiset(s)
    ensures |ns| == |s|
    ensures forall n :: n in ns <==> n in s
    ensures forall i, j :: 0 <= i < j < |ns| ==> ns[i] != ns[j]
  {
    assert |multiset(ns)| == |multiset(s)|;
    forall n ensures n in ns <==> n in s {
      assert n in ns <==> n in multiset(ns);
    }
    forall i, j | 0 <= i < j < |ns| ensures ns[i] != ns[j] {
      assert multiset(s)[ns[i]] <= 1;
      Unrepeated(ns, i, j);
    }
  }

  /** Any way of collecting the names of a set once each sorts to its listing. */
  lemma SortIsListing(xs: seq<string>, s: set<string>)
    requires multiset(xs) == multiset(s)
    ensures Sort(StrLeq, xs) == Listing(s)
  {
    StringOrder();
    SortSorted(StrLeq, xs);
    OneArrangement(StrLeq, multiset(s), Sort(StrLeq, xs), Listing(s));
  }
}
