/** Whether one URL may be fetched, from the operator's block list. */
module Netblock {
  import opened Wrappers
  import opened Arithmetic
  import opened Text
  import opened Ipv4Text

  const TWO80 := 0x1_0000_0000_0000_0000_0000
  const TWO112 := 0x1_0000_0000_0000_0000_0000_0000_0000
  const TWO128 := 0x1_0000_0000_0000_0000_0000_0000_0000_0000

  datatype Address = V4(value: nat) | V6(value: nat)

  predicate IsAddress(a: Address) {
    a.value < if a.V4? then TWO32 else TWO128
  }

  /** The addresses that share the top bits of `base`: all but the lowest `free` bits. */
  datatype Network = Net4(base: nat, free: nat) | Net6(base: nat, free: nat)

  function Pow2(e: nat): (p: nat)
    ensures p > 0
  {
    if e == 0 then 1 else 2 * Pow2(e - 1)
  }

  predicate Covers(net: Network, a: Address) {
    net.Net4? == a.V4? && a.value / Pow2(net.free) == net.base / Pow2(net.free)
  }

  // --- wrappers ------------------------------------------------------------------------

  const NAT64 := 0x64_ff9b_0000_0000_0000_0000

  /** The IPv4 address an IPv6 address carries. */
  function Carried(ip: nat): Option<nat> {
    if ip / TWO32 == 0xFFFF then Some(ip % TWO32)
    else if ip / TWO112 == 0x2002 then Some(ip / TWO80 % TWO32)
    else if ip / TWO32 == NAT64 then Some(ip % TWO32)
    else if ip / TWO32 == 0 && ip > 1 then Some(ip)
    else None
  }

  function Embedded(a: Address): seq<Address> {
    if a.V6? && Carried(a.value).Some? then [a, V4(Carried(a.value).value)] else [a]
  }

  /** `_embedded`: a list that gets at most one more address. */
  method CollectEmbedded(a: Address) returns (found: seq<Address>)
    ensures found == Embedded(a)
  {
    found := [a];
    if a.V6? {
      if a.value / TWO32 == 0xFFFF {
        found := found + [V4(a.value % TWO32)];
      } else if a.value / TWO112 == 0x2002 {
        found := found + [V4(a.value / TWO80 % TWO32)];
      } else if a.value / TWO32 == NAT64 {
        found := found + [V4(a.value % TWO32)];
      } else if a.value / TWO32 == 0 && a.value > 1 {
        found := found + [V4(a.value)];
      }
    }
  }

  /** The IPv6 spellings of an IPv4 address: mapped, NAT64, 6to4 with any subnet and host, compatible. */
  datatype Wrapper = Mapped | Nat64 | SixToFour(rest: nat) | Compatible

  predicate MayWrap(w: Wrapper, v: nat) {
    match w
    case SixToFour(rest) => rest < TWO80
    case Compatible => v > 1
    case _ => true
  }

  function Wrap(w: Wrapper, v: nat): Address {
    match w
    case Mapped => V6(0xFFFF * TWO32 + v)
    case Nat64 => V6(NAT64 * TWO32 + v)
    case SixToFour(rest) => V6(0x2002 * TWO112 + v * TWO80 + rest)
    case Compatible => V6(v)
  }

  lemma WrapperCarries(w: Wrapper, v: nat)
    requires v < TWO32 && MayWrap(w, v)
    ensures Carried(Wrap(w, v).value) == Some(v) && IsAddress(Wrap(w, v))
  {
    match w
    case Mapped => Parts32(0xFFFF, v);
    case Nat64 =>
      Parts32(NAT64, v);
      assert (NAT64 * TWO32 + v) / TWO112 == 0x64;
    case SixToFour(rest) =>
      var ip := 0x2002 * TWO112 + v * TWO80 + rest;
      assert ip / TWO112 == 0x2002;
      assert ip / TWO80 == 0x2002 * TWO32 + v;
      assert ip / TWO32 >= 0x2002 * TWO80;
      Parts32(0x2002, v);
    case Compatible =>
  }

  lemma Parts32(high: nat, low: nat)
    requires low < TWO32
    ensures (high * TWO32 + low) / TWO32 == high && (high * TWO32 + low) % TWO32 == low
  {
  }

  // --- the operator's entries ---------------------------------------------------------------

  predicate InNetwork(addresses: seq<Address>, net: Network) {
    exists i :: 0 <= i < |addresses| && Covers(net, addresses[i])
  }

  /**
   An IPv4 network covers an IPv6 wrapper exactly when it covers the address inside.
   */
  lemma NetworkSeesThroughWrappers(net: Network, w: Wrapper, v: nat)
    requires net.Net4? && v < TWO32 && MayWrap(w, v)
    ensures InNetwork(Embedded(Wrap(w, v)), net) <==> Covers(net, V4(v))
    ensures InNetwork(Embedded(V4(v)), net) <==> Covers(net, V4(v))
  {
    WrapperCarries(w, v);
    assert Embedded(Wrap(w, v))[1] == V4(v);
    assert Embedded(V4(v))[0] == V4(v);
  }

  /** A network is the run of addresses that starts at its base with the free bits cleared. */
  lemma CoversRange(net: Network, a: Address)
    ensures Covers(net, a) <==>
              && net.Net4? == a.V4?
              && net.base - net.base % Pow2(net.free) <= a.value < net.base - net.base % Pow2(net.free) + Pow2(net.free)
  {
    SameQuotient(a.value, net.base, Pow2(net.free));
  }

  lemma SameQuotient(a: nat, b: nat, m: nat)
    requires m > 0
    ensures a / m == b / m <==> b - b % m <= a < b - b % m + m
  {
    assert a == m * (a / m) + a % m && b == m * (b / m) + b % m;
    if a / m > b / m {
      Scaled(a / m, b / m, m);
    } else if a / m < b / m {
      Scaled(b / m, a / m, m);
    }
  }

  /** What lies outside this code: URL splitting, IDNA, address literals, patterns and DNS. */
  datatype Library = Library(
    urlsplit: string -> Option<Url>,
    idna: string -> Option<string>,
    ipv6: string -> Option<nat>,
    network: string -> Option<Network>,
    address: string -> Option<Address>,
    fnmatch: (string, string) -> bool,
    resolved: string -> seq<Address>)

  datatype Url = Url(scheme: string, netloc: string, goodPort: bool, hostname: string)

  /** `_matches`. */
  predicate Matches(lib: Library, raw: string, url: string, host: string, addresses: seq<Address>) {
    var entry := Lower(Strip(raw));
    if entry == "" then false
    else if '*' in entry || '?' in entry then
      (StartsWith(entry, "*.") && (host == entry[2..] || EndsWith(host, entry[1..]))) || lib.fnmatch(host, entry)
    else if '/' in entry then
      match lib.network(entry)
      case None => Contains(Lower(url), entry)
      case Some(net) => InNetwork(addresses, net)
    else if StartsWith(entry, ".") then host == entry[1..] || EndsWith(host, entry)
    else
      match lib.address(entry)
      case Some(literal) => literal in addresses
      case None =>
        if host == entry || EndsWith(host, "." + entry) then true
        else if '.' in entry then false
        else Contains(Lower(url), entry) || Contains(host, entry)
  }

  /** `_network`: the network an entry names. */
  function NetworkOf(lib: Library, raw: string): Option<Network> {
    var entry := Lower(Strip(raw));
    if '/' in entry then lib.network(entry) else None
  }

  predicate IsPattern(entry: string) {
    '*' in entry || '?' in entry
  }

  // --- a domain entry covers whole labels -----------------------------------------------------

  lemma {:induction false} SplitDot(a: string, b: string)
    ensures Split(a + "." + b, '.') == Split(a, '.') + Split(b, '.')
  {
    JoinSplit(a, '.');
    JoinSplit(b, '.');
    var parts := Split(a, '.') + Split(b, '.');
    JoinConcat(Split(a, '.'), Split(b, '.'));
    SplitJoin(parts, '.');
  }

  lemma {:induction false} JoinConcat(a: seq<string>, b: seq<string>)
    requires a != [] && b != []
    ensures Join(a + b, '.') == Join(a, '.') + "." + Join(b, '.')
  {
    if |a| == 1 {
      assert (a + b)[1..] == b;
    } else {
      JoinConcat(a[1..], b);
      assert (a + b)[1..] == a[1..] + b;
    }
  }

  /**
   The host is the domain or ends in a dot and the domain exactly when the labels of the host end in
   the labels of the domain, so a longer name that merely ends in the same letters is not covered.
   */
  lemma DomainCoversLabels(host: string, domain: string)
    ensures (host == domain || EndsWith(host, "." + domain)) <==>
              exists n :: 0 <= n < |Split(host, '.')| && Split(host, '.')[n..] == Split(domain, '.')
  {
    if host == domain || EndsWith(host, "." + domain) {
      var n := LabelsEnd(host, domain);
    }
    forall n | 0 <= n < |Split(host, '.')| && Split(host, '.')[n..] == Split(domain, '.')
      ensures host == domain || EndsWith(host, "." + domain)
    {
      LabelsCover(host, domain, n);
    }
  }

  lemma LabelsEnd(host: string, domain: string) returns (n: nat)
    requires host == domain || EndsWith(host, "." + domain)
    ensures n < |Split(host, '.')| && Split(host, '.')[n..] == Split(domain, '.')
  {
    if host == domain {
      n := 0;
    } else {
      var front := host[..|host| - |domain| - 1];
      assert host == front + "." + domain;
      SplitDot(front, domain);
      n := |Split(front, '.')|;
    }
  }

  lemma LabelsCover(host: string, domain: string, n: nat)
    requires n < |Split(host, '.')| && Split(host, '.')[n..] == Split(domain, '.')
    ensures host == domain || EndsWith(host, "." + domain)
  {
    JoinSplit(host, '.');
    JoinSplit(domain, '.');
    if n == 0 {
      assert Split(host, '.')[0..] == Split(host, '.');
    } else {
      LabelsJoin(Split(host, '.'), n);
      EndsWithConcat(Join(Split(host, '.')[..n], '.'), "." + domain);
    }
  }

  lemma LabelsJoin(labels: seq<string>, n: nat)
    requires 0 < n < |labels|
    ensures Join(labels, '.') == Join(labels[..n], '.') + ("." + Join(labels[n..], '.'))
  {
    assert labels == labels[..n] + labels[n..];
    JoinConcat(labels[..n], labels[n..]);
  }

  lemma EndsWithConcat(a: string, b: string)
    ensures EndsWith(a + b, b)
  {
  }

  // --- the host of a URL --------------------------------------------------------------------------

  predicate Ambiguous(c: char) {
    c == '\\' || IsSpace(c) || c < ' ' || c == '\U{7f}'
  }

  function StripDots(s: string): string {
    if s != "" && s[|s| - 1] == '.' then StripDots(s[..|s| - 1]) else s
  }

  predicate NameChar(c: char) {
    'a' <= c <= 'z' || '0' <= c <= '9' || c == '_' || c == '-'
  }

  /** `_HOST_NAME`: non-empty labels of letters, digits, `_` and `-`. */
  predicate IsHostName(host: string) {
    forall l | l in Split(host, '.') :: l != "" && forall c | c in l :: NameChar(c)
  }

  /** `str(address)` of an IPv4 address. */
  function Dotted(v: nat): string
    requires v < TWO32
  {
    Write(v, [Plain, Plain, Plain, Plain], false)
  }

  /** `_host_of`, from the split URL; None where it raises. */
  function HostOf(lib: Library, raw: string, url: Url): Option<(string, Option<Address>)> {
    if exists c | c in raw :: Ambiguous(c) then None
    else if '@' in url.netloc || '%' in url.netloc || !url.goodPort || url.hostname == "" then None
    else if StartsWith(url.netloc, "[") then
      match lib.ipv6(url.hostname)
      case None => None
      case Some(v) => Some((Lower(url.hostname), Some(V6(v))))
    else
      match lib.idna(url.hostname)
      case None => None
      case Some(folded) =>
        var host := StripDots(Lower(folded));
        if host == "" then None
        else if EndsInNumber(host) then
          match ReadIpv4(host)
          case None => None
          case Some(v) => Some((Dotted(v), Some(V4(v))))
        else if IsHostName(host) then Some((host, None))
        else None
  }

  // --- the decision -------------------------------------------------------------------------------

  datatype Reason =
    | NoUrl
    | Unreadable
    | Scheme
    | Listed(entry: string)
    | ResolvesInto(net: Network)

  function FirstMatch(lib: Library, blocked: seq<string>, url: string, host: string, addresses: seq<Address>): Option<string> {
    if blocked == [] then None
    else if Matches(lib, blocked[0], url, host, addresses) then Some(blocked[0])
    else FirstMatch(lib, blocked[1..], url, host, addresses)
  }

  function FirstNetwork(lib: Library, blocked: seq<string>, found: seq<Address>): Option<Network> {
    if blocked == [] then None
    else
      var net := NetworkOf(lib, blocked[0]);
      if net.Some? && InNetwork(found, net.value) then net else FirstNetwork(lib, blocked[1..], found)
  }

  function EmbeddedAll(addresses: seq<Address>): seq<Address> {
    if addresses == [] then [] else Embedded(addresses[0]) + EmbeddedAll(addresses[1..])
  }

  function Verdict(lib: Library, text: string, blocked: seq<string>, resolve: bool): Option<Reason> {
    var raw := Strip(text);
    if raw == "" then Some(NoUrl)
    else
      match lib.urlsplit(raw)
      case None => Some(Unreadable)
      case Some(url) =>
        if Lower(url.scheme) != "http" && Lower(url.scheme) != "https" then Some(Scheme)
        else
          match HostOf(lib, raw, url)
          case None => Some(Unreadable)
          case Some((host, address)) => HostVerdict(lib, raw, host, address, blocked, resolve)
  }

  function HostVerdict(lib: Library, raw: string, host: string, address: Option<Address>, blocked: seq<string>, resolve: bool)
    : Option<Reason>
  {
    var entry := FirstMatch(lib, blocked, raw, host, if address.Some? then Embedded(address.value) else []);
    if entry.Some? then Some(Listed(entry.value))
    else if resolve && address.None? then
      var net := FirstNetwork(lib, blocked, EmbeddedAll(lib.resolved(host)));
      if net.Some? then Some(ResolvesInto(net.value)) else None
    else None
  }

  /** `block_reason`: the loops over the list return at the first entry that covers the URL. */
  method BlockReason(lib: Library, text: string, blocked: seq<string>, resolve: bool) returns (r: Option<Reason>)
    ensures r == Verdict(lib, text, blocked, resolve)
  {
    var raw := Strip(text);
    if raw == "" {
      return Some(NoUrl);
    }
    var url := lib.urlsplit(raw);
    if url.None? {
      return Some(Unreadable);
    }
    if Lower(url.value.scheme) != "http" && Lower(url.value.scheme) != "https" {
      return Some(Scheme);
    }
    var read := HostOf(lib, raw, url.value);
    if read.None? {
      return Some(Unreadable);
    }
    var (host, address) := read.value;
    var addresses := [];
    if address.Some? {
      addresses := CollectEmbedded(address.value);
    }
    for i := 0 to |blocked|
      invariant FirstMatch(lib, blocked, raw, host, addresses) == FirstMatch(lib, blocked[i..], raw, host, addresses)
    {
      assert blocked[i..][1..] == blocked[i + 1..];
      if Matches(lib, blocked[i], raw, host, addresses) {
        return Some(Listed(blocked[i]));
      }
    }
    if resolve && address.None? {
      var found := EmbeddedAll(lib.resolved(host));
      for i := 0 to |blocked|
        invariant FirstNetwork(lib, blocked, found) == FirstNetwork(lib, blocked[i..], found)
      {
        assert blocked[i..][1..] == blocked[i + 1..];
        var net := NetworkOf(lib, blocked[i]);
        if net.Some? && InNetwork(found, net.value) {
          return Some(ResolvesInto(net.value));
        }
      }
    }
    return None;
  }

  // --- what the list decides -----------------------------------------------------------------------

  predicate IsCidr(lib: Library, raw: string) {
    !IsPattern(Lower(Strip(raw))) && NetworkOf(lib, raw).Some?
  }

  /** The first entry whose network covers one of `addresses`. */
  function FirstCovering(lib: Library, blocked: seq<string>, addresses: seq<Address>): Option<string> {
    if blocked == [] then None
    else
      var net := NetworkOf(lib, blocked[0]);
      if net.Some? && InNetwork(addresses, net.value) then Some(blocked[0])
      else FirstCovering(lib, blocked[1..], addresses)
  }

  /** A list of networks decides by the address alone, whatever the URL and the host look like. */
  lemma {:induction false} NetworksDecideByAddress(lib: Library, blocked: seq<string>, url: string, host: string, addresses: seq<Address>)
    requires forall e | e in blocked :: IsCidr(lib, e)
    ensures FirstMatch(lib, blocked, url, host, addresses) == FirstCovering(lib, blocked, addresses)
  {
    if blocked != [] {
      assert IsCidr(lib, blocked[0]);
      NetworksDecideByAddress(lib, blocked[1..], url, host, addresses);
    }
  }

  /** `text` is an `http` or `https` URL that can be read, up to its host. */
  predicate IsReadable(lib: Library, text: string) {
    var raw := Strip(text);
    raw != "" && lib.urlsplit(raw).Some? &&
    var url := lib.urlsplit(raw).value;
    && (Lower(url.scheme) == "http" || Lower(url.scheme) == "https")
    && !(exists c | c in raw :: Ambiguous(c))
    && '@' !in url.netloc && '%' !in url.netloc && url.goodPort && url.hostname != ""
  }

  /** The host of `text`, folded and without final dots, is `host`. */
  predicate NamesHost(lib: Library, text: string, host: string) {
    IsReadable(lib, text) &&
    var url := lib.urlsplit(Strip(text)).value;
    && !StartsWith(url.netloc, "[")
    && lib.idna(url.hostname).Some? && StripDots(Lower(lib.idna(url.hostname).value)) == host
  }

  /** The host of `text` is a literal of the address `a` in brackets. */
  predicate NamesIpv6(lib: Library, text: string, a: Address) {
    IsReadable(lib, text) && a.V6? &&
    var url := lib.urlsplit(Strip(text)).value;
    StartsWith(url.netloc, "[") && lib.ipv6(url.hostname) == Some(a.value)
  }

  /** The verdict that names `entry`, if there is one. */
  function Named(entry: Option<string>): Option<Reason> {
    match entry
    case Some(e) => Some(Listed(e))
    case None => None
  }

  /**
   Two URLs that spell one IPv4 address in any two ways share the verdict of a list of networks, and
   it names the first network that covers the address.
   */
  lemma SpellingsShareFate(lib: Library, text: string, v: nat, styles: seq<Style>, blocked: seq<string>, resolve: bool)
    requires v < TWO32 && 1 <= |styles| <= 4 && AllFit(Pieces(v, |styles|), styles)
    requires NamesHost(lib, text, Write(v, styles, false))
    requires forall e | e in blocked :: IsCidr(lib, e)
    ensures Verdict(lib, text, blocked, resolve) == Named(FirstCovering(lib, blocked, [V4(v)]))
  {
    hide ReadIpv4, Matches, EndsInNumber, IsPlainHost, Write, IsHostName;
    var host := Write(v, styles, false);
    SpellingsReadBack(v, styles, false);
    EmptyIsNoNumber();
    NetworksDecideByAddress(lib, blocked, Strip(text), Dotted(v), [V4(v)]);
  }

  lemma EmptyIsNoNumber()
    ensures !EndsInNumber("")
  {
    assert Split("", '.') == [""];
  }

  /** The dotted host that stands for an address in a verdict reads as that address again. */
  lemma DottedReadsBack(v: nat)
    requires v < TWO32
    ensures ReadIpv4(Dotted(v)) == Some(v)
  {
    SpellingsReadBack(v, [Plain, Plain, Plain, Plain], false);
  }

  lemma {:induction false} CoveringSeesThrough(lib: Library, blocked: seq<string>, w: Wrapper, v: nat)
    requires v < TWO32 && MayWrap(w, v)
    requires forall e | e in blocked :: IsCidr(lib, e) && NetworkOf(lib, e).value.Net4?
    ensures FirstCovering(lib, blocked, Embedded(Wrap(w, v))) == FirstCovering(lib, blocked, [V4(v)])
  {
    if blocked != [] {
      assert IsCidr(lib, blocked[0]);
      NetworkSeesThroughWrappers(NetworkOf(lib, blocked[0]).value, w, v);
      assert Embedded(V4(v)) == [V4(v)];
      CoveringSeesThrough(lib, blocked[1..], w, v);
    }
  }

  /**
   Under a list of IPv4 networks the URL of an IPv6 wrapper has the verdict of the address inside: the
   one that every spelling of that address has.
   */
  lemma WrappersShareFate(lib: Library, text: string, w: Wrapper, v: nat, blocked: seq<string>, resolve: bool)
    requires v < TWO32 && MayWrap(w, v) && NamesIpv6(lib, text, Wrap(w, v))
    requires forall e | e in blocked :: IsCidr(lib, e) && NetworkOf(lib, e).value.Net4?
    ensures Verdict(lib, text, blocked, resolve) == Named(FirstCovering(lib, blocked, [V4(v)]))
  {
    hide Carried, Matches;
    var raw := Strip(text);
    var host := Lower(lib.urlsplit(raw).value.hostname);
    NetworksDecideByAddress(lib, blocked, raw, host, Embedded(Wrap(w, v)));
    CoveringSeesThrough(lib, blocked, w, v);
  }

  /** An empty list refuses exactly what no list decides: no URL, a foreign scheme, an unreadable host. */
  lemma EmptyListBlocksNoPlace(lib: Library, text: string, resolve: bool)
    ensures Verdict(lib, text, [], resolve).None? <==>
              && Strip(text) != "" && lib.urlsplit(Strip(text)).Some?
              && Lower(lib.urlsplit(Strip(text)).value.scheme) in {"http", "https"}
              && HostOf(lib, Strip(text), lib.urlsplit(Strip(text)).value).Some?
    ensures Verdict(lib, text, [], resolve).Some? ==> Verdict(lib, text, [], resolve).value in {NoUrl, Unreadable, Scheme}
  {
  }

  lemma {:induction false} MatchMonotone(lib: Library, blocked: seq<string>, more: seq<string>, url: string, host: string, addresses: seq<Address>)
    requires forall e | e in blocked :: e in more
    ensures FirstMatch(lib, blocked, url, host, addresses).Some? ==> FirstMatch(lib, more, url, host, addresses).Some?
    decreases |blocked|
  {
    if blocked != [] {
      if Matches(lib, blocked[0], url, host, addresses) {
        MatchFound(lib, more, blocked[0], url, host, addresses);
      } else {
        MatchMonotone(lib, blocked[1..], more, url, host, addresses);
      }
    }
  }

  lemma {:induction false} MatchFound(lib: Library, blocked: seq<string>, entry: string, url: string, host: string, addresses: seq<Address>)
    requires entry in blocked && Matches(lib, entry, url, host, addresses)
    ensures FirstMatch(lib, blocked, url, host, addresses).Some?
  {
    if blocked[0] != entry {
      MatchFound(lib, blocked[1..], entry, url, host, addresses);
    }
  }

  lemma {:induction false} NetworkMonotone(lib: Library, blocked: seq<string>, more: seq<string>, found: seq<Address>)
    requires forall e | e in blocked :: e in more
    ensures FirstNetwork(lib, blocked, found).Some? ==> FirstNetwork(lib, more, found).Some?
    decreases |blocked|
  {
    if blocked != [] {
      var net := NetworkOf(lib, blocked[0]);
      if net.Some? && InNetwork(found, net.value) {
        NetworkFound(lib, more, blocked[0], found);
      } else {
        NetworkMonotone(lib, blocked[1..], more, found);
      }
    }
  }

  lemma {:induction false} NetworkFound(lib: Library, blocked: seq<string>, entry: string, found: seq<Address>)
    requires entry in blocked && NetworkOf(lib, entry).Some? && InNetwork(found, NetworkOf(lib, entry).value)
    ensures FirstNetwork(lib, blocked, found).Some?
  {
    if blocked[0] != entry {
      NetworkFound(lib, blocked[1..], entry, found);
    }
  }

  /** No entry lifts what another forbids: what a list refuses, every list with those entries refuses. */
  lemma LongerListsRefuseMore(lib: Library, text: string, blocked: seq<string>, more: seq<string>, resolve: bool)
    requires forall e | e in blocked :: e in more
    ensures Verdict(lib, text, blocked, resolve).Some? ==> Verdict(lib, text, more, resolve).Some?
  {
    var raw := Strip(text);
    if lib.urlsplit(raw).Some? && HostOf(lib, raw, lib.urlsplit(raw).value).Some? {
      var (host, address) := HostOf(lib, raw, lib.urlsplit(raw).value).value;
      MatchMonotone(lib, blocked, more, raw, host, if address.Some? then Embedded(address.value) else []);
      NetworkMonotone(lib, blocked, more, EmbeddedAll(lib.resolved(host)));
    }
  }
}
