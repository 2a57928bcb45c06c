/** internal/manager/manager.go: the sorted lists of a sync's reply and of /status. They
    are collected by ranging over Go maps and sorted at the end, so each is the one listing
    of what was collected. */
module Reports {
  import opened Sorting
  import opened Hostnames
  import opened Render
  import opened Lifecycle
  import opened Safety

  /** The names of the files seen so far that are not desired. */
  ghost function Gone(prior: map<string, Content>, p: Plan, rest: set<string>): set<string> {
    set n | n in prior && n !in rest && n !in p.desired :: Stem(n)
  }

  /** No two vhost files have the same name but for the suffix. */
  lemma GoneStep(prior: map<string, Content>, p: Plan, rest: set<string>, fn: string)
    requires (forall n | n in prior :: IsConf(n)) && fn in prior && fn in rest
    ensures fn !in p.desired ==> Stem(fn) !in Gone(prior, p, rest)
    ensures Gone(prior, p, rest - {fn}) == Gone(prior, p, rest) + if fn in p.desired then {} else {Stem(fn)}
  {
    StemFileName(fn);
    forall n | n in prior && n != fn ensures Stem(n) != Stem(fn) { StemFileName(n); }
  }

  /** The vhosts that were there and are not desired, by name. */
  method ListPruned(prior: map<string, Content>, p: Plan, ghost s: Sys) returns (pruned: seq<string>)
    requires prior == s.files && forall n | n in prior :: IsRouteName(n)
    ensures pruned == PrunedOf(s, p)
  {
    pruned := [];
    var rest := prior.Keys;
    while rest != {}
      invariant rest <= prior.Keys
      invariant multiset(pruned) == multiset(Gone(prior, p, rest))
      decreases rest
    {
      var fn :| fn in rest;
      GoneStep(prior, p, rest, fn);
      if fn !in p.desired {
        pruned := pruned + [Stem(fn)];
      }
      rest := rest - {fn};
    }
    assert Gone(prior, p, {}) == set n | n in s.files && n !in p.desired :: Stem(n);
    SortIsListing(pruned, Gone(prior, p, {}));
    pruned := Sort(StrLeq, pruned);
  }

  // ---- lists sorted by name ----

  ghost function Named<T>(name: T -> string, xs: seq<T>): (names: seq<string>)
    ensures |names| == |xs|
  {
    seq(|xs|, i requires 0 <= i < |xs| => name(xs[i]))
  }

  lemma {:induction false} NamedPermutation<T>(name: T -> string, xs: seq<T>, ys: seq<T>)
    requires multiset(xs) == multiset(ys)
    ensures multiset(Named(name, xs)) == multiset(Named(name, ys))
  {
    if xs == [] {
      assert |multiset(ys)| == 0;
    } else {
      assert xs[0] in multiset(ys);
      var j :| 0 <= j < |ys| && ys[j] == xs[0];
      var before, after := ys[..j], ys[j+1..];
      Removed(xs, ys, before, after);
      NamedPermutation(name, xs[1..], before + after);
      NamedAround(name, [], xs[0], xs[1..]);
      NamedAround(name, before, xs[0], after);
      assert xs == [] + [xs[0]] + xs[1..] && ys == before + [xs[0]] + after;
      assert [] + xs[1..] == xs[1..];
    }
  }

  lemma Removed<T>(xs: seq<T>, ys: seq<T>, before: seq<T>, after: seq<T>)
    requires xs != [] && multiset(xs) == multiset(ys) && ys == before + [xs[0]] + after
    ensures multiset(xs[1..]) == multiset(before + after)
  {
    assert xs == [xs[0]] + xs[1..];
    assert multiset(xs) == multiset{xs[0]} + multiset(xs[1..]);
    assert multiset(before + [xs[0]] + after) == multiset(before) + multiset([xs[0]]) + multiset(after);
    assert multiset([xs[0]]) == multiset{xs[0]};
    assert multiset(xs[1..]) == multiset(xs) - multiset{xs[0]};
    assert multiset(before + after) == multiset(before) + multiset(after);
  }

  lemma NamedAround<T>(name: T -> string, before: seq<T>, x: T, after: seq<T>)
    ensures multiset(Named(name, before + [x] + after)) == multiset(Named(name, before + after)) + multiset{name(x)}
  {
    assert Named(name, before + [x] + after) == Named(name, before) + [name(x)] + Named(name, after);
    assert Named(name, before + after) == Named(name, before) + Named(name, after);
  }

  /** sort.Slice by FQDN. Whatever order the entries of a map were collected in, sorting
      them by name leaves them in the order of the map's keys. */
  lemma SortByName<T(!new)>(name: T -> string, leq: (T, T) -> bool, xs: seq<T>, keys: set<string>)
    requires forall a, b :: leq(a, b) <==> StrLeq(name(a), name(b))
    requires multiset(Named(name, xs)) == multiset(keys)
    ensures Named(name, Sort(leq, xs)) == Listing(keys)
  {
    var ys := Sort(leq, xs);
    NamePreorder(name, leq);
    SortSorted(leq, xs);
    NamedPermutation(name, xs, ys);
    NamedListing(Named(name, ys), keys);
  }

  lemma NamePreorder<T(!new)>(name: T -> string, leq: (T, T) -> bool)
    requires forall a, b :: leq(a, b) <==> StrLeq(name(a), name(b))
    ensures Preorder(leq)
  {
    StringOrder();
  }

  lemma NamedListing(names: seq<string>, keys: set<string>)
    requires Sorted(StrLeq, names) && multiset(names) == multiset(keys)
    ensures names == Listing(keys)
  {
    StringOrder();
    OneArrangement(StrLeq, multiset(keys), names, Listing(keys));
  }

  /** The results of an accepted sync. */
  method Results(p: Plan) returns (results: seq<FqdnResult>)
    ensures results == ResultsOf(p)
  {
    var xs := CollectResults(p);
    SortByName((x: FqdnResult) => x.fqdn, ResultLeq, xs, p.entries.Keys);
    results := Sort(ResultLeq, xs);
    SortedResults(p, xs, results);
  }

  predicate ResultLeq(a: FqdnResult, b: FqdnResult) { StrLeq(a.fqdn, b.fqdn) }

  predicate ResultFor(p: Plan, x: FqdnResult) {
    && x.fqdn in p.entries
    && x == FqdnResult(x.fqdn, x.fqdn !in p.kept, p.entries[x.fqdn].generation)
  }

  ghost predicate ResultsOver(p: Plan, done: set<string>, xs: seq<FqdnResult>) {
    && multiset(Named((x: FqdnResult) => x.fqdn, xs)) == multiset(done)
    && forall i | 0 <= i < |xs| :: ResultFor(p, xs[i])
  }

  lemma ResultsSnoc(p: Plan, done: set<string>, xs: seq<FqdnResult>, x: FqdnResult)
    requires ResultsOver(p, done, xs) && ResultFor(p, x) && x.fqdn !in done
    ensures ResultsOver(p, done + {x.fqdn}, xs + [x])
  {
    var name := (x: FqdnResult) => x.fqdn;
    assert Named(name, xs + [x]) == Named(name, xs) + [x.fqdn];
  }

  method CollectResults(p: Plan) returns (xs: seq<FqdnResult>)
    ensures ResultsOver(p, p.entries.Keys, xs)
  {
    xs := [];
    var rest := p.entries.Keys;
    ghost var done: set<string> := {};
    while rest != {}
      invariant rest <= p.entries.Keys && done == p.entries.Keys - rest
      invariant ResultsOver(p, done, xs)
      decreases rest
    {
      var f :| f in rest;
      ResultsSnoc(p, done, xs, FqdnResult(f, f !in p.kept, p.entries[f].generation));
      xs := xs + [FqdnResult(f, f !in p.kept, p.entries[f].generation)];
      rest, done := rest - {f}, done + {f};
    }
    assert done == p.entries.Keys;
  }

  lemma SortedResults(p: Plan, xs: seq<FqdnResult>, results: seq<FqdnResult>)
    requires multiset(results) == multiset(xs) && forall i | 0 <= i < |xs| :: ResultFor(p, xs[i])
    requires Named((x: FqdnResult) => x.fqdn, results) == Listing(p.entries.Keys)
    ensures results == ResultsOf(p)
  {
    var names := Named((x: FqdnResult) => x.fqdn, results);
    forall i | 0 <= i < |results| ensures results[i] == ResultsOf(p)[i] {
      assert results[i] in multiset(results) && results[i] in xs;
      assert names[i] == results[i].fqdn;
    }
  }

  // ---- GET /status ----

  datatype RouteStatus = RouteStatus(fqdn: string, present: bool, generation: int)
  datatype CertStatus = CertStatus(fqdn: string, cert: CertState, error: string)

  predicate RouteLeq(a: RouteStatus, b: RouteStatus) { StrLeq(a.fqdn, b.fqdn) }
  predicate CertLeq(a: CertStatus, b: CertStatus) { StrLeq(a.fqdn, b.fqdn) }

  predicate RouteFor(entries: map<string, Entry>, x: RouteStatus) {
    && x.fqdn in entries
    && x == RouteStatus(x.fqdn, entries[x.fqdn].present, entries[x.fqdn].generation)
  }

  predicate CertFor(entries: map<string, Entry>, x: CertStatus) {
    && x.fqdn in entries && x.cert != NoCert
    && x == CertStatus(x.fqdn, entries[x.fqdn].cert, entries[x.fqdn].certError)
  }

  ghost function WithState(entries: map<string, Entry>): set<string> {
    set f | f in entries && entries[f].cert != NoCert
  }

  /** Every known name, and every name with a certificate state, once, in name order. */
  ghost predicate Reported(entries: map<string, Entry>, routes: seq<RouteStatus>, certs: seq<CertStatus>) {
    && Named((x: RouteStatus) => x.fqdn, routes) == Listing(entries.Keys)
    && (forall i | 0 <= i < |routes| :: RouteFor(entries, routes[i]))
    && Named((x: CertStatus) => x.fqdn, certs) == Listing(WithState(entries))
    && (forall i | 0 <= i < |certs| :: CertFor(entries, certs[i]))
  }

  method StatusLists(entries: map<string, Entry>) returns (routes: seq<RouteStatus>, certs: seq<CertStatus>)
    ensures Reported(entries, routes, certs)
  {
    var rs, cs := CollectStatus(entries);
    assert WithState(entries) * entries.Keys == WithState(entries);
    SortByName((x: RouteStatus) => x.fqdn, RouteLeq, rs, entries.Keys);
    SortByName((x: CertStatus) => x.fqdn, CertLeq, cs, WithState(entries));
    routes, certs := Sort(RouteLeq, rs), Sort(CertLeq, cs);
    forall i | 0 <= i < |routes| ensures RouteFor(entries, routes[i]) { assert routes[i] in multiset(routes); }
    forall i | 0 <= i < |certs| ensures CertFor(entries, certs[i]) { assert certs[i] in multiset(certs); }
  }

  ghost predicate RoutesOver(entries: map<string, Entry>, done: set<string>, routes: seq<RouteStatus>) {
    && multiset(Named((x: RouteStatus) => x.fqdn, routes)) == multiset(done)
    && forall i | 0 <= i < |routes| :: RouteFor(entries, routes[i])
  }

  ghost predicate CertsOver(entries: map<string, Entry>, done: set<string>, certs: seq<CertStatus>) {
    && multiset(Named((x: CertStatus) => x.fqdn, certs)) == multiset(WithState(entries) * done)
    && forall i | 0 <= i < |certs| :: CertFor(entries, certs[i])
  }

  lemma RoutesSnoc(entries: map<string, Entry>, done: set<string>, routes: seq<RouteStatus>, x: RouteStatus)
    requires RoutesOver(entries, done, routes) && RouteFor(entries, x) && x.fqdn !in done
    ensures RoutesOver(entries, done + {x.fqdn}, routes + [x])
  {
    var name := (x: RouteStatus) => x.fqdn;
    assert Named(name, routes + [x]) == Named(name, routes) + [x.fqdn];
  }

  /** A name without a certificate state adds nothing. */
  lemma CertsStep(entries: map<string, Entry>, done: set<string>, certs: seq<CertStatus>, f: string)
    requires CertsOver(entries, done, certs) && f in entries && f !in done
    ensures var x := CertStatus(f, entries[f].cert, entries[f].certError);
            CertsOver(entries, done + {f}, if x.cert != NoCert then certs + [x] else certs)
  {
    var name, x := (x: CertStatus) => x.fqdn, CertStatus(f, entries[f].cert, entries[f].certError);
    assert Named(name, certs + [x]) == Named(name, certs) + [f];
    assert WithState(entries) * (done + {f}) == WithState(entries) * done + if x.cert != NoCert then {f} else {};
  }

  lemma NothingOver(entries: map<string, Entry>)
    ensures RoutesOver(entries, {}, []) && CertsOver(entries, {}, [])
  {
    assert WithState(entries) * {} == {};
  }

  method CollectStatus(entries: map<string, Entry>) returns (routes: seq<RouteStatus>, certs: seq<CertStatus>)
    ensures RoutesOver(entries, entries.Keys, routes) && CertsOver(entries, entries.Keys, certs)
  {
    hide RoutesOver, CertsOver;
    routes, certs := [], [];
    NothingOver(entries);
    var rest := entries.Keys;
    ghost var done: set<string> := {};
    while rest != {}
      invariant rest <= entries.Keys && done == entries.Keys - rest
      invariant RoutesOver(entries, done, routes) && CertsOver(entries, done, certs)
      decreases rest
    {
      var f :| f in rest;
      var e := entries[f];
      RoutesSnoc(entries, done, routes, RouteStatus(f, e.present, e.generation));
      routes := routes + [RouteStatus(f, e.present, e.generation)];
      CertsStep(entries, done, certs, f);
      if e.cert != NoCert {
        certs := certs + [CertStatus(f, e.cert, e.certError)];
      }
      rest, done := rest - {f}, done + {f};
    }
    assert done == entries.Keys;
  }

  lemma NamedOnce<T>(name: T -> string, xs: seq<T>, keys: set<string>)
    requires Named(name, xs) == Listing(keys)
    ensures forall i, j | 0 <= i < j < |xs| :: StrLeq(name(xs[i]), name(xs[j])) && name(xs[i]) != name(xs[j])
    ensures forall i | 0 <= i < |xs| :: name(xs[i]) in keys
    ensures forall f | f in keys :: exists i :: 0 <= i < |xs| && name(xs[i]) == f
  {
    hide StrLeq;
    var names := Named(name, xs);
    assert forall i | 0 <= i < |xs| :: names[i] == name(xs[i]) && names[i] in names;
    forall f | f in keys ensures exists i :: 0 <= i < |xs| && name(xs[i]) == f {
      assert f in names;
      var i :| 0 <= i < |names| && names[i] == f;
      assert name(xs[i]) == f;
    }
  }

  /** What the lists show of a name: whether it is known, is present and at what generation;
      and its certificate state, with the error, if it has one. */
  lemma StatusShows(entries: map<string, Entry>, routes: seq<RouteStatus>, certs: seq<CertStatus>, f: string)
    requires Reported(entries, routes, certs)
    ensures f in entries ==> RouteStatus(f, entries[f].present, entries[f].generation) in routes
    ensures f in entries && entries[f].cert != NoCert ==> CertStatus(f, entries[f].cert, entries[f].certError) in certs
    ensures forall x | x in routes && x.fqdn == f :: f in entries
    ensures forall x | x in certs && x.fqdn == f :: f in entries && entries[f].cert != NoCert
  {
    hide StrLeq, Named;
    NamedOnce((x: RouteStatus) => x.fqdn, routes, entries.Keys);
    NamedOnce((x: CertStatus) => x.fqdn, certs, WithState(entries));
    if f in entries {
      var i :| 0 <= i < |routes| && routes[i].fqdn == f;
      assert RouteFor(entries, routes[i]);
      if f in WithState(entries) {
        var j :| 0 <= j < |certs| && certs[j].fqdn == f;
        assert CertFor(entries, certs[j]);
      }
    }
  }

  /** Both are in name order, each name once. */
  lemma StatusOrder(entries: map<string, Entry>, routes: seq<RouteStatus>, certs: seq<CertStatus>)
    requires Reported(entries, routes, certs)
    ensures forall i, j | 0 <= i < j < |routes| ::
              StrLeq(routes[i].fqdn, routes[j].fqdn) && routes[i].fqdn != routes[j].fqdn
    ensures forall i, j | 0 <= i < j < |certs| ::
              StrLeq(certs[i].fqdn, certs[j].fqdn) && certs[i].fqdn != certs[j].fqdn
  {
    hide StrLeq, Named;
    NamedOnce((x: RouteStatus) => x.fqdn, routes, entries.Keys);
    NamedOnce((x: CertStatus) => x.fqdn, certs, WithState(entries));
  }

  /** Two observations, the second of a state the first can have led to: every name seen
      is seen again, at no lower a generation. */
  lemma StatusNeverRegresses(a: Image, routes: seq<RouteStatus>, certs: seq<CertStatus>,
                             b: Image, routes': seq<RouteStatus>, certs': seq<CertStatus>, i: nat)
    requires Leq(a, b) && Reported(a.entries, routes, certs) && Reported(b.entries, routes', certs') && i < |routes|
    ensures exists j :: 0 <= j < |routes'|
              && routes'[j].fqdn == routes[i].fqdn && routes[i].generation <= routes'[j].generation
  {
    var f := routes[i].fqdn;
    assert RouteFor(a.entries, routes[i]) && f in b.entries.Keys;
    var names := Named((x: RouteStatus) => x.fqdn, routes');
    assert f in names;
    var j :| 0 <= j < |names| && names[j] == f;
    assert RouteFor(b.entries, routes'[j]);
  }
}
