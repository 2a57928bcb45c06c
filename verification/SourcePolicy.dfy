/** internal/sourcepolicy and internal/render/source_policy.go: an allowlist of source
    networks, from the caller's CIDR strings to the access rules nginx evaluates. */
module SourcePolicy {
  import opened Wrappers
  import opened Sorting

  /** What /status advertises. */
  const CAPABILITY := "source-acl-v1"

  // ---- addresses and prefixes ----

  function Pow2(n: nat): (p: nat)
    ensures p >= 1
  {
    if n == 0 then 1 else 2 * Pow2(n - 1)
  }

  lemma {:induction false} Pow2Add(m: nat, n: nat)
    ensures Pow2(m + n) == Pow2(m) * Pow2(n)
  {
    if n > 0 { Pow2Add(m, n - 1); }
  }

  lemma Pow2Values()
    ensures Pow2(16) == 0x1_0000 && Pow2(32) == 0x1_0000_0000
  {
    assert Pow2(2) == 4;
    Pow2Add(2, 2);
    Pow2Add(4, 4);
    Pow2Add(8, 8);
    Pow2Add(16, 16);
  }

  function Width(v6: bool): nat { if v6 then 128 else 32 }

  datatype AnyAddr = Addr(v6: bool, bits: nat)
  type Addr = a: AnyAddr | a.bits < Pow2(Width(a.v6)) witness Addr(false, 0)

  datatype AnyPrefix = Prefix(v6: bool, addr: nat, bits: nat)
  type Prefix = p: AnyPrefix | p.bits <= Width(p.v6) && p.addr < Pow2(Width(p.v6))
    witness Prefix(false, 0, 0)

  /** The size of the block a prefix denotes. */
  function Block(p: Prefix): nat { Pow2(Width(p.v6) - p.bits) }

  /** netip.Prefix.Masked: the prefix with its host bits cleared. */
  function Masked(p: Prefix): Prefix { Prefix(p.v6, p.addr - p.addr % Block(p), p.bits) }

  /** An IPv6 spelling of an IPv4 address: the block ::ffff:0:0/96. */
  predicate Is4In6(p: Prefix) { p.v6 && p.addr / Pow2(32) == 0xffff }

  /** Same family and same leading bits. */
  predicate Contains(p: Prefix, a: Addr) {
    p.v6 == a.v6 && a.bits / Block(p) == p.addr / Block(p)
  }

  /** The prefixes a policy may hold: no host bits, no mapped IPv4. */
  predicate Canonical(p: Prefix) { !Is4In6(p) && p == Masked(p) }

  // ---- what a prefix means, bit by bit ----

  /** The i-th bit of a number of so many bits, the highest first. */
  predicate BitAt(x: nat, width: nat, i: nat)
    requires i < width
  {
    x / Pow2(width - 1 - i) % 2 == 1
  }

  lemma DivUnique(x: nat, d: nat, q: nat, r: nat)
    requires x == q * d + r && r < d
    ensures x / d == q && x % d == r
  {
    DivInterval(x, q * d, d);
    ModMultiple(q, d);
  }

  lemma ModMultiple(q: nat, d: nat)
    requires d > 0
    ensures q * d % d == 0 && q * d / d == q
  {
    var x := q * d;
    var k, r := x / d, x % d;
    assert x == k * d + r;
    if k < q {
      MulMonotone(k + 1, q, d);
    } else if k > q {
      MulMonotone(q + 1, k, d);
    }
  }

  /** Dividing by twice as much halves the quotient. */
  lemma HalfQuotient(x: nat, m: nat)
    requires m > 0
    ensures x / (2 * m) == x / m / 2
  {
    var q, r := x / m, x % m;
    var k, b := q / 2, q % 2;
    assert x == q * m + r == k * (2 * m) + (b * m + r) by { assert q == 2 * k + b; }
    DivUnique(x, 2 * m, k, b * m + r);
  }

  /** Two numbers agree in their first n bits if and only if they do without the rest. */
  lemma {:induction false} LeadingBits(x: nat, y: nat, width: nat, n: nat)
    requires x < Pow2(width) && y < Pow2(width) && n <= width
    ensures x / Pow2(width - n) == y / Pow2(width - n) <==>
              forall i: nat | i < n :: BitAt(x, width, i) == BitAt(y, width, i)
  {
    if n == 0 {
      DivUnique(x, Pow2(width), 0, x);
      DivUnique(y, Pow2(width), 0, y);
    } else {
      var m := Pow2(width - n);
      LeadingBits(x, y, width, n - 1);
      HalfQuotient(x, m);
      HalfQuotient(y, m);
      assert BitAt(x, width, n - 1) <==> x / m % 2 == 1;
      assert BitAt(y, width, n - 1) <==> y / m % 2 == 1;
      assert Pow2(width - (n - 1)) == 2 * m;
    }
  }

  /** A number is its bits. */
  lemma SameBits(x: nat, y: nat, width: nat)
    requires x < Pow2(width) && y < Pow2(width)
    requires forall i: nat | i < width :: BitAt(x, width, i) == BitAt(y, width, i)
    ensures x == y
  {
    LeadingBits(x, y, width, width);
  }

  /** A prefix contains an address of its own family if its first p.bits bits are the
      prefix's: of the 128 of IPv6 or the 32 of IPv4. */
  lemma ContainsBits(p: Prefix, a: Addr)
    ensures var width: nat := if p.v6 then 128 else 32;
            Contains(p, a) <==>
              a.v6 == p.v6 && forall i: nat | i < p.bits :: BitAt(a.bits, width, i) == BitAt(p.addr, width, i)
  {
    if a.v6 == p.v6 { LeadingBits(a.bits, p.addr, Width(p.v6), p.bits); }
  }

  /** Masking keeps the first p.bits bits and clears the rest. */
  lemma MaskedBits(p: Prefix)
    ensures Masked(p).v6 == p.v6 && Masked(p).bits == p.bits
    ensures var width: nat := if p.v6 then 128 else 32;
            forall i: nat | i < width :: BitAt(Masked(p).addr, width, i) <==> i < p.bits && BitAt(p.addr, width, i)
  {
    var width, m, x := Width(p.v6), Block(p), Masked(p).addr;
    var q := p.addr / m;
    assert x == q * m;
    ModMultiple(q, m);
    LeadingBits(x, p.addr, width, p.bits);
    forall i: nat | p.bits <= i < width ensures !BitAt(x, width, i) { MultipleBit(q, width - p.bits, x, width, i); }
  }

  /** A multiple of Pow2(n) has no bit set among its last n. */
  lemma MultipleBit(q: nat, n: nat, x: nat, width: nat, i: nat)
    requires x == q * Pow2(n) && i < width <= i + n
    ensures !BitAt(x, width, i)
  {
    var e := width - 1 - i;
    Pow2Add(e, n - e);
    var d, half := Pow2(e), Pow2(n - e - 1);
    assert Pow2(n) == d * (2 * half);
    MulRegroup(q, d, half);
    ModMultiple(2 * (q * half), d);
  }

  lemma MulRegroup(q: nat, d: nat, half: nat)
    ensures q * (d * (2 * half)) == 2 * (q * half) * d
  {}

  /** A canonical prefix is no mapped IPv4 address, and has no bit set after its first
      p.bits. */
  lemma CanonicalBits(p: Prefix)
    ensures var width: nat := if p.v6 then 128 else 32;
            Canonical(p) <==>
              && !(p.v6 && 0xffff_0000_0000 <= p.addr < 0x1_0000_0000_0000)
              && forall i: nat | p.bits <= i < width :: !BitAt(p.addr, width, i)
  {
    var width := Width(p.v6);
    MaskedBits(p);
    Pow2Values();
    if forall i: nat | p.bits <= i < width :: !BitAt(p.addr, width, i) {
      SameBits(p.addr, Masked(p).addr, width);
    }
  }

  /** A canonical prefix is the interval of addresses starting at its own
      (section 3.1 of RFC 4632). */
  lemma CanonicalInterval(p: Prefix, a: Addr)
    requires Canonical(p)
    ensures Contains(p, a) <==>
              p.v6 == a.v6 && p.addr <= a.bits < p.addr + Pow2((if p.v6 then 128 else 32) - p.bits)
  {
    DivInterval(a.bits, p.addr, Block(p));
  }

  lemma DivInterval(x: nat, y: nat, m: nat)
    requires m > 0 && y % m == 0
    ensures x / m == y / m <==> y <= x < y + m
  {
    var k, q := y / m, x / m;
    assert y == k * m && x == q * m + x % m;
    if q < k {
      MulMonotone(q + 1, k, m);
    } else if q > k {
      MulMonotone(k + 1, q, m);
    }
  }

  lemma MulMonotone(x: nat, y: nat, m: nat)
    requires x <= y
    ensures x * m <= y * m
  {}

  // ---- CIDR strings ----

  /** A CIDR string is either what Prefix.String prints, or some other spelling of
      which only the prefix it parses to (if any) matters. */
  datatype Cidr = Printed(prefix: Prefix) | Spelled(text: string, parses: Option<Prefix>)

  function ParsePrefix(c: Cidr): Option<Prefix> {
    match c
    case Printed(p) => Some(p)
    case Spelled(_, p) => p
  }

  datatype Policy = Policy(prefixes: seq<Prefix>)

  datatype ParseError =
    | TooMany(count: nat)
    | NotCanonical(index: nat, cidr: Cidr)
    | Duplicate(cidr: Cidr)

  const MAX_CIDRS: nat := 128

  predicate Acceptable(c: Cidr) {
    match ParsePrefix(c)
    case None => false
    case Some(p) => !Is4In6(p) && p == Masked(p) && Printed(p) == c
  }

  /** The lists Parse accepts. */
  ghost predicate Accepted(cs: seq<Cidr>) {
    && |cs| <= MAX_CIDRS
    && (forall i | 0 <= i < |cs| :: Acceptable(cs[i]))
    && (forall i, j | 0 <= i < j < |cs| :: cs[i] != cs[j])
  }

  /** What is wrong with the list at entry i, the earlier entries being right. */
  ghost predicate FaultAt(cs: seq<Cidr>, i: nat, e: ParseError)
    requires i < |cs|
  {
    if !Acceptable(cs[i]) then e == NotCanonical(i, cs[i])
    else cs[i] in cs[..i] && e == Duplicate(cs[i])
  }

  function PrefixesOf(cs: seq<Cidr>): (ps: seq<Prefix>)
    requires forall i | 0 <= i < |cs| :: Acceptable(cs[i])
  {
    seq<Prefix>(|cs|, i requires 0 <= i < |cs| && Acceptable(cs[i]) => ParsePrefix(cs[i]).value)
  }

  /** netip.Addr.Compare (IPv4 below IPv6, then by value), then the mask length. */
  predicate PrefixLeq(a: Prefix, b: Prefix) {
    if a.v6 != b.v6 then b.v6
    else if a.addr != b.addr then a.addr < b.addr
    else a.bits <= b.bits
  }

  lemma PrefixOrder()
    ensures TotalOrder(PrefixLeq)
  {}

  /** The policy an accepted list denotes. */
  ghost function Parsed(cs: seq<Cidr>): Policy
    requires Accepted(cs)
  {
    Policy(Sort(PrefixLeq, PrefixesOf(cs)))
  }

  /** Canonical networks only, each once, in the order of slices.SortFunc. */
  method Parse(cidrs: Option<seq<Cidr>>) returns (r: Result<Option<Policy>, ParseError>)
    ensures cidrs.None? ==> r == Success(None)
    ensures cidrs.Some? ==> (r.Success? <==> Accepted(cidrs.value))
    ensures cidrs.Some? && r.Success? ==> r.value == Some(Parsed(cidrs.value))
    ensures cidrs.Some? && |cidrs.value| > 128 ==> r == Failure(TooMany(|cidrs.value|))
    ensures cidrs.Some? && |cidrs.value| <= 128 && r.Failure? ==>
              exists i :: 0 <= i < |cidrs.value| && Accepted(cidrs.value[..i]) && FaultAt(cidrs.value, i, r.error)
  {
    if cidrs.None? {
      return Success(None);
    }
    var cs := cidrs.value;
    if |cs| > MAX_CIDRS {
      return Failure(TooMany(|cs|));
    }
    var prefixes: seq<Prefix> := [];
    var seen: set<Prefix> := {};
    for i := 0 to |cs|
      invariant Accepted(cs[..i])
      invariant prefixes == PrefixesOf(cs[..i])
      invariant forall p :: p in seen <==> Printed(p) in cs[..i]
    {
      assert cs[..i+1] == cs[..i] + [cs[i]];
      var parsed := ParsePrefix(cs[i]);
      if || parsed.None? || Is4In6(parsed.value)
         || parsed.value != Masked(parsed.value) || Printed(parsed.value) != cs[i] {
        return Failure(NotCanonical(i, cs[i]));
      }
      if parsed.value in seen {
        return Failure(Duplicate(cs[i]));
      }
      seen := seen + {parsed.value};
      prefixes := prefixes + [parsed.value];
    }
    assert cs[..|cs|] == cs;
    r := Success(Some(Policy(Sort(PrefixLeq, prefixes))));
  }

  /** What is accepted: at most 128 strings, each as a canonical prefix prints, all of them
      different. */
  lemma AcceptedMeans(cs: seq<Cidr>)
    ensures Accepted(cs) <==>
              && |cs| <= 128
              && (forall i | 0 <= i < |cs| :: cs[i].Printed? && Canonical(cs[i].prefix))
              && (forall i, j | 0 <= i < j < |cs| :: cs[i] != cs[j])
  {
    if forall i | 0 <= i < |cs| :: cs[i].Printed? && Canonical(cs[i].prefix) {
      forall i | 0 <= i < |cs| ensures Acceptable(cs[i]) { assert cs[i].Printed?; }
    }
  }

  /** The policy holds the listed prefixes, each once: IPv4 before IPv6, by address, and
      shorter masks first. */
  lemma PolicyOrder(cs: seq<Cidr>)
    requires Accepted(cs)
    ensures |Parsed(cs).prefixes| == |cs| && forall p: Prefix :: p in Parsed(cs).prefixes <==> Printed(p) in cs
    ensures forall i, j | 0 <= i < j < |cs| && |Parsed(cs).prefixes| == |cs| ::
              var p, q := Parsed(cs).prefixes[i], Parsed(cs).prefixes[j];
              || (!p.v6 && q.v6)
              || (p.v6 == q.v6 && (p.addr < q.addr || (p.addr == q.addr && p.bits < q.bits)))
  {
    var ps := Parsed(cs).prefixes;
    PolicyBag(cs);
    PrefixOrder();
    SortSorted(PrefixLeq, PrefixesOf(cs));
    forall i, j | 0 <= i < j < |ps| ensures PrefixLeq(ps[i], ps[j]) && ps[i] != ps[j] {
      DistinctCount(cs, Printed(ps[i]));
      Unrepeated(ps, i, j);
    }
  }

  lemma PolicyBag(cs: seq<Cidr>)
    requires Accepted(cs)
    ensures |Parsed(cs).prefixes| == |cs| && forall p: Prefix :: p in Parsed(cs).prefixes <==> Printed(p) in cs
    ensures forall p: Prefix :: multiset(Parsed(cs).prefixes)[p] == multiset(cs)[Printed(p)]
  {
    var ps := Parsed(cs).prefixes;
    PrefixesBag(cs);
    assert multiset(ps) == multiset(PrefixesOf(cs));
    assert |ps| == |multiset(ps)| == |multiset(PrefixesOf(cs))|;
    forall p: Prefix ensures p in ps <==> Printed(p) in cs {
      assert p in ps <==> p in multiset(ps);
      assert Printed(p) in cs <==> Printed(p) in multiset(cs);
    }
  }

  lemma PermutationAccepted(cs: seq<Cidr>, ds: seq<Cidr>)
    requires Accepted(cs) && multiset(cs) == multiset(ds)
    ensures Accepted(ds)
  {
    assert |multiset(cs)| == |multiset(ds)|;
    forall i | 0 <= i < |ds| ensures Acceptable(ds[i]) {
      assert ds[i] in multiset(ds);
      assert ds[i] in cs;
    }
    forall i, j | 0 <= i < j < |ds| ensures ds[i] != ds[j] {
      DistinctCount(cs, ds[i]);
      assert ds == ds[..i] + [ds[i]] + ds[i+1..j] + [ds[j]] + ds[j+1..];
    }
  }

  /** A permutation of an accepted list is accepted and gives the same policy. */
  lemma OrderFree(cs: seq<Cidr>, ds: seq<Cidr>)
    requires Accepted(cs) && multiset(cs) == multiset(ds)
    ensures Accepted(ds) && Parsed(ds) == Parsed(cs)
  {
    PermutationAccepted(cs, ds);
    PrefixesBag(cs);
    PrefixesBag(ds);
    forall p: Prefix ensures multiset(PrefixesOf(cs))[p] == multiset(PrefixesOf(ds))[p] {
    }
    assert multiset(PrefixesOf(cs)) == multiset(PrefixesOf(ds));
    PrefixOrder();
    SortPermutation(PrefixLeq, PrefixesOf(cs), PrefixesOf(ds));
  }

  lemma {:induction false} DistinctCount(cs: seq<Cidr>, c: Cidr)
    requires forall i, j | 0 <= i < j < |cs| :: cs[i] != cs[j]
    ensures multiset(cs)[c] <= 1
  {
    if cs != [] {
      assert cs == [cs[0]] + cs[1..];
      DistinctCount(cs[1..], c);
      if cs[0] == c {
        assert c !in cs[1..];
      }
    }
  }

  lemma {:induction false} PrefixesBag(cs: seq<Cidr>)
    requires forall i | 0 <= i < |cs| :: Acceptable(cs[i])
    ensures forall p: Prefix :: multiset(PrefixesOf(cs))[p] == multiset(cs)[Printed(p)]
  {
    if cs != [] {
      PrefixesBag(cs[1..]);
      assert cs == [cs[0]] + cs[1..];
      assert PrefixesOf(cs) == [ParsePrefix(cs[0]).value] + PrefixesOf(cs[1..]);
    }
  }

  // ---- printing a policy, and the JSON document ----

  function Printout(policy: Policy): (cs: seq<Cidr>)
    ensures |cs| == |policy.prefixes|
  {
    seq(|policy.prefixes|, i requires 0 <= i < |policy.prefixes| => Printed(policy.prefixes[i]))
  }

  /** Printing a policy and parsing the result gives the policy back. */
  lemma PrintParse(cs: seq<Cidr>)
    requires Accepted(cs)
    ensures Accepted(Printout(Parsed(cs))) && Parsed(Printout(Parsed(cs))) == Parsed(cs)
  {
    var ps := Parsed(cs).prefixes;
    var ds := Printout(Parsed(cs));
    assert multiset(ps) == multiset(PrefixesOf(cs));
    PrefixesBag(cs);
    PrintoutBag(ps);
    forall c ensures multiset(ds)[c] == multiset(cs)[c] {
      match c {
        case Printed(p) =>
        case Spelled(_, _) =>
      }
    }
    assert multiset(ds) == multiset(cs);
    OrderFree(cs, ds);
  }

  lemma {:induction false} PrintoutBag(ps: seq<Prefix>)
    ensures forall p: Prefix :: multiset(Printout(Policy(ps)))[Printed(p)] == multiset(ps)[p]
    ensures forall c :: c in Printout(Policy(ps)) ==> c.Printed?
  {
    if ps != [] {
      PrintoutBag(ps[1..]);
      assert ps == [ps[0]] + ps[1..];
      assert Printout(Policy(ps)) == [Printed(ps[0])] + Printout(Policy(ps[1..]));
    }
  }

  datatype FieldValue = Strings(items: seq<Cidr>) | NullValue | IllTyped
  datatype Field = Field(name: string, value: FieldValue)
  datatype Json = Null | Object(fields: seq<Field>) | OtherValue

  datatype DecodeError = NotAnObject | NotOneField | BadValue | NotAnArray | BadPolicy(error: ParseError)

  const ALLOWED: string := "allowedCidrs"

  /** The one document shape that carries a policy. */
  ghost predicate Carries(doc: Json, cs: seq<Cidr>) {
    doc == Object([Field(ALLOWED, Strings(cs))])
  }

  function Encoded(policy: Option<Policy>): Json {
    match policy
    case None => Null
    case Some(p) => Object([Field(ALLOWED, Strings(Printout(p)))])
  }

  /** Optional tells an omitted policy (legacy access) from an explicit allowlist. */
  class Optional {
    var policy: Option<Policy>

    constructor (policy: Option<Policy>)
      ensures this.policy == policy
    {
      this.policy := policy;
    }

    /** No list omits the policy, an empty one does not; a refused list leaves none and is
        reported, with Parse's error. */
    static method FromCIDRs(cidrs: Option<seq<Cidr>>) returns (o: Optional, err: Option<ParseError>)
      ensures fresh(o)
      ensures err.None? <==> cidrs.None? || Accepted(cidrs.value)
      ensures o.policy == if cidrs.Some? && err.None? then Some(Parsed(cidrs.value)) else None
      ensures cidrs.Some? && |cidrs.value| > 128 ==> err == Some(TooMany(|cidrs.value|))
      ensures cidrs.Some? && |cidrs.value| <= 128 && err.Some? ==>
                exists i :: 0 <= i < |cidrs.value| && Accepted(cidrs.value[..i]) && FaultAt(cidrs.value, i, err.value)
    {
      var parsed := Parse(cidrs);
      o := new Optional(if parsed.Success? then parsed.value else None);
      err := if parsed.Success? then None else Some(parsed.error);
    }

    predicate IsZero() reads this { policy.None? }

    function Value(): Option<Policy> reads this { policy }

    /** Accepts exactly one non-null allowedCidrs array; on error nothing changes. */
    method UnmarshalJSON(doc: Json) returns (err: Option<DecodeError>)
      modifies this
      ensures err.None? <==> exists cs :: Carries(doc, cs) && Accepted(cs)
      ensures forall cs :: Carries(doc, cs) && Accepted(cs) ==> policy == Some(Parsed(cs))
      ensures err.Some? ==> policy == old(policy)
      ensures err == Some(NotAnObject) <==> !doc.Object?
      ensures forall cs :: Carries(doc, cs) && !Accepted(cs) ==>
                err.Some? && err.value.BadPolicy? && if |cs| > 128 then err.value.error == TooMany(|cs|) else
                  exists i :: 0 <= i < |cs| && Accepted(cs[..i]) && FaultAt(cs, i, err.value.error)
    {
      if !doc.Object? {
        return Some(NotAnObject);
      }
      var cidrs: Option<seq<Cidr>> := None;
      var seen := false;
      for i := 0 to |doc.fields|
        invariant policy == old(policy)
        invariant !seen <==> i == 0
        invariant i <= 1
        invariant i == 1 ==> doc.fields[0].name == ALLOWED && !doc.fields[0].value.IllTyped?
        invariant i == 1 ==> cidrs == if doc.fields[0].value.Strings? then Some(doc.fields[0].value.items) else None
      {
        if doc.fields[i].name != ALLOWED || seen {
          return Some(NotOneField);
        }
        seen := true;
        match doc.fields[i].value {
          case Strings(items) => cidrs := Some(items);
          case NullValue => cidrs := None;
          case IllTyped => return Some(BadValue);
        }
      }
      if !seen || cidrs.None? {
        return Some(NotAnArray);
      }
      assert doc.fields == [doc.fields[0]];
      assert Carries(doc, cidrs.value);
      var parsed := Parse(cidrs);
      if parsed.Failure? {
        return Some(BadPolicy(parsed.error));
      }
      policy := parsed.value;
      err := None;
    }

    /** An explicit empty allowlist stays explicit; an omitted policy is null. */
    method MarshalJSON() returns (doc: Json)
      ensures doc == Encoded(policy)
    {
      if IsZero() {
        return Null;
      }
      var cidrs: seq<Cidr> := [];
      for i := 0 to |policy.value.prefixes|
        invariant |cidrs| == i
        invariant forall k | 0 <= k < i :: cidrs[k] == Printed(policy.value.prefixes[k])
      {
        cidrs := cidrs + [Printed(policy.value.prefixes[i])];
      }
      assert cidrs == Printout(policy.value);
      doc := Object([Field(ALLOWED, Strings(cidrs))]);
    }
  }

  /** Encoding a validated policy and decoding the document restores it; an omitted
      policy encodes to null, which no decode accepts. */
  lemma JsonRoundTrip(cs: seq<Cidr>)
    requires Accepted(cs)
    ensures exists ds :: Carries(Encoded(Some(Parsed(cs))), ds) && Accepted(ds) && Parsed(ds) == Parsed(cs)
    ensures Encoded(Some(Parsed(cs))) == Object([Field("allowedCidrs", Strings(Printout(Parsed(cs))))])
    ensures Encoded(None) == Null && forall ds :: !Carries(Encoded(None), ds)
  {
    PrintParse(cs);
    assert Carries(Encoded(Some(Parsed(cs))), Printout(Parsed(cs)));
  }

  // ---- access rules ----

  datatype Rule = Allow(prefix: Prefix) | DenyAll

  /** nginx's access phase: the first matching rule decides, no rule means access. */
  predicate Admits(rules: seq<Rule>, a: Addr) {
    if rules == [] then true
    else match rules[0]
      case DenyAll => false
      case Allow(p) => Contains(p, a) || Admits(rules[1..], a)
  }

  function Rules(policy: Option<Policy>): seq<Rule> {
    match policy
    case None => []
    case Some(p) => AllowEach(p.prefixes) + [DenyAll]
  }

  function AllowEach(ps: seq<Prefix>): (rs: seq<Rule>)
    ensures |rs| == |ps|
  {
    seq(|ps|, i requires 0 <= i < |ps| => Allow(ps[i]))
  }

  /** sourcePolicyDirectives: one allow per prefix, then a final deny. */
  method SourcePolicyDirectives(policy: Option<Policy>) returns (rules: seq<Rule>)
    ensures rules == Rules(policy)
  {
    rules := [];
    if policy.None? {
      return;
    }
    var ps := policy.value.prefixes;
    for i := 0 to |ps|
      invariant rules == AllowEach(ps[..i])
    {
      rules := rules + [Allow(ps[i])];
    }
    assert ps[..|ps|] == ps;
    rules := rules + [DenyAll];
  }

  lemma {:induction false} AllowListAdmits(ps: seq<Prefix>, a: Addr)
    ensures Admits(AllowEach(ps) + [DenyAll], a) <==> exists p :: p in ps && Contains(p, a)
  {
    var rules := AllowEach(ps) + [DenyAll];
    if ps != [] {
      AllowListAdmits(ps[1..], a);
      assert rules[1..] == AllowEach(ps[1..]) + [DenyAll];
      assert ps == [ps[0]] + ps[1..];
    }
  }

  /** The ordered first-match list means plain set membership: it admits exactly the
      addresses inside some listed network, so no address for the empty list. */
  lemma RulesMeanUnion(cs: seq<Cidr>, a: Addr)
    requires Accepted(cs)
    ensures Admits(Rules(Some(Parsed(cs))), a) <==>
              exists i :: 0 <= i < |cs| && Contains(ParsePrefix(cs[i]).value, a)
    ensures cs == [] ==> !Admits(Rules(Some(Parsed(cs))), a)
    ensures Admits(Rules(None), a)
  {
    var ps := Parsed(cs).prefixes;
    AllowListAdmits(ps, a);
    var qs := PrefixesOf(cs);
    assert multiset(ps) == multiset(qs);
    forall p: Prefix ensures p in ps <==> p in qs {
      assert p in ps <==> p in multiset(ps);
      assert p in qs <==> p in multiset(qs);
    }
    if i :| 0 <= i < |cs| && Contains(ParsePrefix(cs[i]).value, a) {
      assert qs[i] in ps;
    }
    if p :| p in ps && Contains(p, a) {
      var i :| 0 <= i < |qs| && qs[i] == p;
      assert ParsePrefix(cs[i]).value == p;
    }
  }
}
