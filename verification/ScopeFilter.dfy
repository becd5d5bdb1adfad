/** CIDR scope filtering. Only the text syntax of addresses and networks is left to a parameter. */
module ScopeFilterModel {
  import opened Prelude

  /** `version` is 4 or 6. */
  datatype Address = Address(version: int, value: nat)

  /** `hostBits` is the address width minus the prefix length; `base` has its host bits cleared. */
  datatype Network = Network(version: int, base: nat, hostBits: nat)

  /** Reading of texts; `network` yields the address as written and the host bits, strict=False. */
  datatype IpSyntax = IpSyntax(address: string -> Option<Address>, network: string -> Option<(Address, nat)>)

  lemma {:induction false} ModAtMost(v: nat, p: nat)
    requires p > 0
    ensures v % p <= v
  {
    if v < p {
      assert v % p == v;
    }
  }

  function Masked(value: nat, hostBits: nat): nat {
    ModAtMost(value, Pow2(hostBits));
    value - value % Pow2(hostBits)
  }

  function MakeNetwork(a: Address, hostBits: nat): Network {
    Network(a.version, Masked(a.value, hostBits), hostBits)
  }

  /** The test of the source: same version, and equal once the host bits are masked out. */
  predicate InNetwork(a: Address, n: Network) {
    a.version == n.version && Masked(a.value, n.hostBits) == n.base
  }

  lemma {:induction false} TimesMonotone(a: nat, b: nat, p: nat)
    requires a <= b
    ensures a * p <= b * p
  {
    if a < b {
      TimesMonotone(a, b - 1, p);
    }
  }

  lemma {:induction false} DivUnique(v: nat, q: nat, p: nat)
    requires p > 0 && q * p <= v < q * p + p
    ensures v / p == q
  {
    var d: nat := v / p;
    var afterD: nat, afterQ: nat := d + 1, q + 1;
    if d < q {
      TimesMonotone(afterD, q, p);
    } else if q < d {
      TimesMonotone(afterQ, d, p);
    }
  }

  /** Membership is prefix arithmetic: the addresses of a network are one aligned block. */
  lemma {:induction false} NetworkIsBlock(a: Address, b: Address, hostBits: nat)
    ensures InNetwork(a, MakeNetwork(b, hostBits)) <==>
            a.version == b.version
            && MakeNetwork(b, hostBits).base <= a.value < MakeNetwork(b, hostBits).base + Pow2(hostBits)
  {
    var p := Pow2(hostBits);
    var base := MakeNetwork(b, hostBits).base;
    var q := b.value / p;
    assert base == q * p;
    if base <= a.value < base + p {
      DivUnique(a.value, q, p);
      assert a.value == q * p + a.value % p;
    }
  }

  /** `_parse_cidr_list` on the texts of a list: unreadable entries are skipped. */
  function Networks(syntax: IpSyntax, texts: seq<string>): seq<Network> {
    if texts == [] then []
    else
      var rest := Networks(syntax, texts[..|texts| - 1]);
      var parsed := syntax.network(texts[|texts| - 1]);
      if parsed.Some? then rest + [MakeNetwork(parsed.value.0, parsed.value.1)] else rest
  }

  predicate InScope(syntax: IpSyntax, networks: seq<Network>, ip: Option<string>) {
    ip.Some? && ip.value != "" && syntax.address(ip.value).Some?
    && exists i :: 0 <= i < |networks| && InNetwork(syntax.address(ip.value).value, networks[i])
  }

  /** Keep when no scope is assigned, or when either end lies in it. */
  predicate Keeps(syntax: IpSyntax, networks: seq<Network>, src: Option<string>, dst: Option<string>) {
    networks == [] || InScope(syntax, networks, src) || InScope(syntax, networks, dst)
  }

  /** The entry can be read as a network that holds the address. */
  predicate Covers(syntax: IpSyntax, entry: string, ip: Option<string>) {
    && ip.Some? && ip.value != "" && syntax.address(ip.value).Some? && syntax.network(entry).Some?
    && InNetwork(syntax.address(ip.value).value, MakeNetwork(syntax.network(entry).value.0, syntax.network(entry).value.1))
  }

  /** What the texts of a scope ask for: no entry can be read, or one of them covers an end. */
  predicate KeptBy(syntax: IpSyntax, scope: seq<string>, src: Option<string>, dst: Option<string>) {
    || (forall i :: 0 <= i < |scope| ==> syntax.network(scope[i]).None?)
    || (exists i :: 0 <= i < |scope| && (Covers(syntax, scope[i], src) || Covers(syntax, scope[i], dst)))
  }

  lemma {:induction false} InScopeMeaning(syntax: IpSyntax, scope: seq<string>, ip: Option<string>)
    ensures InScope(syntax, Networks(syntax, scope), ip) <==> exists i :: 0 <= i < |scope| && Covers(syntax, scope[i], ip)
    ensures Networks(syntax, scope) == [] <==> forall i :: 0 <= i < |scope| ==> syntax.network(scope[i]).None?
    decreases |scope|
  {
    if scope != [] {
      var n := |scope| - 1;
      InScopeMeaning(syntax, scope[..n], ip);
      var rest, all := Networks(syntax, scope[..n]), Networks(syntax, scope);
      assert forall i :: 0 <= i < n ==> scope[..n][i] == scope[i];
      assert forall i :: 0 <= i < |rest| ==> all[i] == rest[i];
      if syntax.network(scope[n]).Some? {
        assert all[|rest|] == MakeNetwork(syntax.network(scope[n]).value.0, syntax.network(scope[n]).value.1);
      }
    }
  }

  /** The networks kept of a scope decide as its texts ask. */
  lemma {:induction false} ScopeDecides(syntax: IpSyntax, scope: seq<string>, src: Option<string>, dst: Option<string>)
    ensures Keeps(syntax, Networks(syntax, scope), src, dst) <==> KeptBy(syntax, scope, src, dst)
  {
    InScopeMeaning(syntax, scope, src);
    InScopeMeaning(syntax, scope, dst);
  }

  class ScopeFilter {
    const syntax: IpSyntax
    var networks: seq<Network>

    constructor (syntax: IpSyntax, scope: seq<string>)
      ensures this.syntax == syntax && networks == Networks(syntax, scope)
    {
      this.syntax := syntax;
      networks := [];
      new;
      networks := ParseCidrList(scope);
    }

    method ParseCidrList(texts: seq<string>) returns (parsed: seq<Network>)
      ensures parsed == Networks(syntax, texts)
    {
      parsed := [];
      for i := 0 to |texts|
        invariant parsed == Networks(syntax, texts[..i])
      {
        assert texts[..i + 1][..i] == texts[..i];
        var network := syntax.network(texts[i]);
        if network.Some? {
          parsed := parsed + [MakeNetwork(network.value.0, network.value.1)];
        }
      }
      assert texts[..|texts|] == texts;
    }

    method SetScope(scope: seq<string>)
      modifies this
      ensures networks == Networks(syntax, scope)
      ensures forall src, dst :: Keeps(syntax, networks, src, dst) <==> KeptBy(syntax, scope, src, dst)
    {
      networks := ParseCidrList(scope);
      forall src, dst
        ensures Keeps(syntax, networks, src, dst) <==> KeptBy(syntax, scope, src, dst)
      {
        ScopeDecides(syntax, scope, src, dst);
      }
    }

    method Matches(ip: Option<string>) returns (found: bool)
      ensures found == InScope(syntax, networks, ip)
    {
      if ip.None? || ip.value == "" {
        return false;
      }
      var addr := syntax.address(ip.value);
      if addr.None? {
        return false;
      }
      for i := 0 to |networks|
        invariant forall j :: 0 <= j < i ==> !InNetwork(addr.value, networks[j])
      {
        if InNetwork(addr.value, networks[i]) {
          return true;
        }
      }
      found := false;
    }

    method Keep(src: Option<string>, dst: Option<string>) returns (kept: bool)
      ensures kept == Keeps(syntax, networks, src, dst)
    {
      if networks == [] {
        return true;
      }
      kept := Matches(src);
      if !kept {
        kept := Matches(dst);
      }
    }
  }

  /** A scope none of whose entries can be read is no scope: everything is kept. */
  lemma {:induction false} UnreadableScopeKeepsAll(syntax: IpSyntax, texts: seq<string>, src: Option<string>, dst: Option<string>)
    requires forall t :: t in texts ==> syntax.network(t).None?
    ensures Keeps(syntax, Networks(syntax, texts), src, dst)
    decreases |texts|
  {
    if texts != [] {
      UnreadableScopeKeepsAll(syntax, texts[..|texts| - 1], src, dst);
    }
  }
}
