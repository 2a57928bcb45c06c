/** internal/render/render.go and internal/model: from a route to the vhost it asks for.
    Vhosts are structured values; the template text is not modelled. */
module Render {
  import opened Wrappers
  import opened Hostnames
  import opened SourcePolicy
  import opened Receipt

  datatype Desired = Present | Absent | OtherState(text: string)

  datatype Route = Route(
    fqdn: string,
    desired: Desired,
    generation: int,
    target: Option<Addr>,     // what netip.ParseAddr makes of targetIp
    port: int,
    certRef: string,
    policy: Option<Policy>)

  datatype CertPair = CertPair(cert: string, key: string)

  /** Params, and the directory certbot keeps live certificates in. */
  datatype Config = Config(
    network: Option<Prefix>,
    leCertRef: string,
    wildcards: map<string, CertPair>,
    leDir: string,
    listenersOk: bool)        // validateMetadata and ValidateIngressMarker accept the params

  const WILDCARD: string := "wildcard:"

  /** The root a wildcard certRef names; an empty root is still a wildcard ref. */
  function WildcardRoot(certRef: string): Option<string> {
    if WILDCARD <= certRef then Some(certRef[|WILDCARD|..]) else None
  }

  predicate IsPlatform(certRef: string) { WildcardRoot(certRef).Some? }

  // ---- validation ----

  datatype Invalid =
    | EmptyFqdn | BadFqdn | BadState | BadIp | OutsideNetwork | BadPort
    | UnknownRoot(root: string) | UnknownCertRef(certRef: string) | BadListeners

  /** 172.29.0.0/16 */
  function TargetNet(): Prefix {
    Pow2Values();
    Prefix(false, (172 * 256 + 29) * 65536, 16)
  }

  /** netip.Addr.Unmap: an IPv4-mapped IPv6 address as the IPv4 address. */
  function Unmap(a: Addr): Addr {
    if a.v6 && a.bits / Pow2(32) == 0xffff then Addr(false, a.bits % Pow2(32)) else a
  }

  /** unicode.IsSpace */
  predicate IsSpace(c: char) {
    || c in " \t\n\U{b}\U{c}\r\U{85}\U{a0}\U{1680}\U{2028}\U{2029}\U{202f}\U{205f}\U{3000}"
    || '\U{2000}' <= c <= '\U{200a}'
  }

  function Validate(c: Config, r: Route): Option<Invalid> {
    var network := if c.network.Some? then c.network.value else TargetNet();
    if forall x | x in r.fqdn :: IsSpace(x) then Some(EmptyFqdn)
    else if !Hostname(r.fqdn) then Some(BadFqdn)
    else match r.desired
      case Absent => None
      case OtherState(_) => Some(BadState)
      case Present =>
        if r.target.None? then Some(BadIp)
        else if !Contains(network, Unmap(r.target.value)) then Some(OutsideNetwork)
        else if r.port < 1 || r.port > 65535 then Some(BadPort)
        else None
  }

  /** strings.TrimRight(s, "/") */
  function TrimSlashes(s: string): (t: string)
    ensures t <= s && (forall i | |t| <= i < |s| :: s[i] == '/') && (t == "" || t[|t|-1] != '/')
  {
    if s != "" && s[|s|-1] == '/' then TrimSlashes(s[..|s|-1]) else s
  }

  /** The certificate files certbot writes for a name. */
  function LivePair(c: Config, fqdn: string): CertPair {
    var base := TrimSlashes(c.leDir) + "/" + fqdn;
    CertPair(base + "/fullchain.pem", base + "/privkey.pem")
  }

  /** No fallback: an unconfigured root or an unknown ref is refused. */
  function CertPaths(c: Config, r: Route): Result<CertPair, Invalid> {
    match WildcardRoot(r.certRef)
    case Some(root) =>
      if root in c.wildcards then Success(c.wildcards[root]) else Failure(UnknownRoot(root))
    case None =>
      if r.certRef == c.leCertRef then Success(LivePair(c, r.fqdn)) else Failure(UnknownCertRef(r.certRef))
  }

  // ---- rendering ----

  datatype Shape = Platform(wildcard: CertPair) | Https(live: CertPair) | Challenge

  datatype Vhost = Vhost(
    fqdn: string,
    generation: int,
    shape: Shape,
    target: Addr,
    port: nat,
    rules: seq<Rule>)

  /** Two-phase for custom domains: challenge-only until the certificate is there. */
  function RenderVhost(c: Config, r: Route, pair: CertPair, certReady: bool): Result<Vhost, Invalid> {
    match Validate(c, r)
    case Some(e) => Failure(e)
    case None =>
      if !c.listenersOk then Failure(BadListeners)
      else if r.target.None? || r.port < 0 then Failure(BadIp)
      else
        var shape := if IsPlatform(r.certRef) then Platform(pair) else if certReady then Https(pair) else Challenge;
        Success(Vhost(r.fqdn, r.generation, shape, r.target.value, r.port, Rules(r.policy)))
  }

  /** What a file of the include directory holds. */
  datatype Content =
    | Site(vhost: Vhost)
    | Proof(nonce: nat, digest: string)
    | Foreign(text: string)

  // ---- the routes the manager can serve ----

  /** A PRESENT route that validates, names a known certificate and renders. */
  predicate Servable(c: Config, r: Route) {
    && r.desired == Present
    && Validate(c, r).None?
    && CertPaths(c, r).Success?
    && c.listenersOk
  }

  /** The vhost of a servable route, with or without its certificate. */
  function SiteOf(c: Config, r: Route, certReady: bool): Vhost
    requires Servable(c, r)
  {
    RenderVhost(c, r, CertPaths(c, r).value, certReady).value
  }

  /** A file is one of the renders of a route. */
  predicate RenderedFrom(c: Config, r: Route, content: Content) {
    Servable(c, r) && (content == Site(SiteOf(c, r, true)) || content == Site(SiteOf(c, r, false)))
  }

  /** Which certificate a route is served with: that configured for the root its certRef
      names, or the live one of its own name, if the certRef is the configured one. */
  lemma CertPathsMean(c: Config, r: Route)
    ensures "wildcard:" <= r.certRef ==>
              CertPaths(c, r) == if r.certRef[9..] in c.wildcards then Success(c.wildcards[r.certRef[9..]])
                                 else Failure(UnknownRoot(r.certRef[9..]))
    ensures !("wildcard:" <= r.certRef) ==>
              var base := TrimSlashes(c.leDir) + "/" + r.fqdn;
              CertPaths(c, r) == if r.certRef == c.leCertRef
                                 then Success(CertPair(base + "/fullchain.pem", base + "/privkey.pem"))
                                 else Failure(UnknownCertRef(r.certRef))
  {}

  /** The target network there is without a configured one: 172.29.0.0/16, also in the
      IPv6 spelling of IPv4. */
  predicate InGuestNetwork(a: Addr) {
    if a.v6 then 0xffff_ac1d_0000 <= a.bits <= 0xffff_ac1d_ffff else 0xac1d_0000 <= a.bits <= 0xac1d_ffff
  }

  lemma UnmapMeans(a: Addr)
    ensures Unmap(a) == if a.v6 && 0xffff_0000_0000 <= a.bits < 0x1_0000_0000_0000
                        then Addr(false, a.bits - 0xffff_0000_0000) else a
  {
    Pow2Values();
  }

  lemma GuestNetwork(a: Addr)
    ensures Contains(TargetNet(), Unmap(a)) <==> InGuestNetwork(a)
  {
    Pow2Values();
    UnmapMeans(a);
    assert TargetNet().addr == 0xac1d_0000;
    CanonicalInterval(TargetNet(), Unmap(a));
  }

  /** A route is valid if and only if its name is a hostname and it either asks for removal
      or for a target in the network, at a port from 1 to 65535; otherwise the error says
      what is wrong. */
  lemma ValidMeans(c: Config, r: Route)
    ensures Validate(c, r).None? <==>
              && Hostname(r.fqdn)
              && (|| r.desired == Absent
                  || (&& r.desired == Present && r.target.Some? && 1 <= r.port <= 65535
                      && if c.network.Some? then Contains(c.network.value, Unmap(r.target.value))
                         else InGuestNetwork(r.target.value)))
    ensures Validate(c, r).Some? ==>
              match Validate(c, r).value
              case EmptyFqdn => forall x | x in r.fqdn :: IsSpace(x)
              case BadFqdn => !Hostname(r.fqdn) && exists x :: x in r.fqdn && !IsSpace(x)
              case BadState => r.desired != Present && r.desired != Absent
              case BadIp => r.desired == Present && r.target.None?
              case OutsideNetwork =>
                r.desired == Present && r.target.Some?
                && if c.network.Some? then !Contains(c.network.value, Unmap(r.target.value))
                   else !InGuestNetwork(r.target.value)
              case BadPort => r.desired == Present && !(1 <= r.port <= 65535)
              case _ => false
  {
    hide TargetNet, Contains, Unmap, Hostname, InGuestNetwork;
    if r.target.Some? { GuestNetwork(r.target.value); }
    if Hostname(r.fqdn) {
      HostnameStart(r.fqdn);
      assert r.fqdn[0] in r.fqdn && !IsSpace(r.fqdn[0]);
    }
  }

  /** A vhost renders if and only if its route is valid and the listeners are; the shape is
      that of its certRef, and for a custom name, of whether its certificate is there. A
      render carries the route's name, generation, target and access rules. */
  lemma RenderCarries(c: Config, r: Route, certReady: bool)
    requires Servable(c, r)
    ensures var v := SiteOf(c, r, certReady);
            v.fqdn == r.fqdn && v.generation == r.generation && Some(v.target) == r.target && v.port == r.port
            && v.rules == Rules(r.policy)
            && (if "wildcard:" <= r.certRef
                then r.certRef[9..] in c.wildcards && v.shape == Platform(c.wildcards[r.certRef[9..]])
                else if certReady
                then var base := TrimSlashes(c.leDir) + "/" + r.fqdn;
                  v.shape == Https(CertPair(base + "/fullchain.pem", base + "/privkey.pem"))
                else v.shape == Challenge)
    ensures IsPlatform(r.certRef) <==> "wildcard:" <= r.certRef
    ensures IsPlatform(r.certRef) ==> SiteOf(c, r, true) == SiteOf(c, r, false)
    ensures Hostname(r.fqdn) && IsRouteName(FileName(r.fqdn))
  {
    ReservedNames(r.fqdn, "");
  }

  lemma RenderRefused(c: Config, r: Route, pair: CertPair, certReady: bool, e: Invalid)
    requires r.desired == Present
    ensures RenderVhost(c, r, pair, certReady) == Failure(e) <==>
              Validate(c, r) == Some(e) || (Validate(c, r).None? && !c.listenersOk && e == BadListeners)
  {}

  /** The backend location of every render admits exactly the sources the policy lists. */
  lemma RenderedAccess(c: Config, r: Route, certReady: bool, cs: seq<Cidr>, a: Addr)
    requires Servable(c, r) && Accepted(cs) && r.policy == Some(Parsed(cs))
    ensures Admits(SiteOf(c, r, certReady).rules, a) <==>
              exists i :: 0 <= i < |cs| && Contains(ParsePrefix(cs[i]).value, a)
  {
    RulesMeanUnion(cs, a);
  }

  /** A target is always inside the configured guest network. */
  lemma TargetConfined(c: Config, r: Route, pair: CertPair, certReady: bool)
    requires r.desired == Present && RenderVhost(c, r, pair, certReady).Success?
    ensures var target := RenderVhost(c, r, pair, certReady).value.target;
            if c.network.Some? then Contains(c.network.value, Unmap(target)) else InGuestNetwork(target)
  {
    ValidMeans(c, r);
  }

  // ---- the bytes of a file ----

  function IntText(n: int): string { if n < 0 then "-" + Decimal(-n) else Decimal(n) }

  function AddrText(a: Addr): string { (if a.v6 then "6:" else "4:") + Decimal(a.bits) }

  function RuleText(rule: Rule): string {
    match rule
    case DenyAll => "deny all"
    case Allow(p) => "allow " + (if p.v6 then "6:" else "4:") + Decimal(p.addr) + "/" + Decimal(p.bits)
  }

  function RulesText(rules: seq<Rule>): string {
    if rules == [] then "" else RuleText(rules[0]) + ";" + RulesText(rules[1..])
  }

  function ShapeText(s: Shape): string {
    match s
    case Challenge => "challenge"
    case Platform(p) => "platform " + p.cert + " " + p.key
    case Https(p) => "custom " + p.cert + " " + p.key
  }

  /** A stand-in for the rendered text: some bytes for every content. */
  function Text(content: Content): string {
    match content
    case Foreign(text) => text
    case Proof(nonce, digest) => "proof " + Decimal(nonce) + ":" + digest
    case Site(v) =>
      "fqdn=" + v.fqdn + " generation=" + IntText(v.generation) + " " + ShapeText(v.shape) +
      " " + AddrText(v.target) + " " + Decimal(v.port) + " " + RulesText(v.rules)
  }
}
