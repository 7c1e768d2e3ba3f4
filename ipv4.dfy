/** The part of Go's `net` package the IP condition uses, for IPv4: `ParseIP` on a dotted quad,
    `ParseCIDR` on "a.b.c.d/n" (the address/prefix notation of section 3.1 of RFC 4632) and
    `IPNet.Contains`, which compares the first n bits. */
module IPv4 {
  import opened Wrappers

  const AddressSpace: nat := 0x1_0000_0000

  type Address = n: nat | n < AddressSpace

  /** A parsed network: its address with the prefix length, 0..32. */
  datatype Network = Network(base: Address, prefix: nat)

  function Pow2(n: nat): (r: nat)
    ensures r >= 1
  {
    if n == 0 then 1 else 2 * Pow2(n - 1)
  }

  predicate IsDigit(c: char) {
    '0' <= c <= '9'
  }

  predicate AllDigits(s: string) {
    forall i :: 0 <= i < |s| ==> IsDigit(s[i])
  }

  /** The decimal value of a string of digits. */
  function DigitsValue(s: string): nat
    requires AllDigits(s)
  {
    if s == [] then 0 else 10 * DigitsValue(s[..|s| - 1]) + (s[|s| - 1] as int - '0' as int)
  }

  /** `s` cut at every occurrence of `sep`; the pieces keep empty ones, as `strings.Split` does. */
  function Split(s: string, sep: char): (parts: seq<string>)
    ensures |parts| >= 1
    decreases |s|
  {
    if s == [] then [""]
    else
      var rest := Split(s[1..], sep);
      if s[0] == sep then [""] + rest else [[s[0]] + rest[0]] + rest[1..]
  }

  /** One component of a dotted quad: one to three digits, no leading zero unless it is "0" itself,
      and a value up to 255. */
  function ParseOctet(f: string): (r: Option<nat>)
    ensures r.Some? ==> r.value < 256
  {
    if 1 <= |f| <= 3 && AllDigits(f) && !(|f| > 1 && f[0] == '0') && DigitsValue(f) < 256
    then Some(DigitsValue(f))
    else None
  }

  /** `net.ParseIP` for an IPv4 dotted quad: exactly four components. */
  function ParseAddress(s: string): Option<Address> {
    var parts := Split(s, '.');
    if |parts| != 4 then None
    else
      match (ParseOctet(parts[0]), ParseOctet(parts[1]), ParseOctet(parts[2]), ParseOctet(parts[3]))
      case (Some(a), Some(b), Some(c), Some(d)) => Some(((a * 256 + b) * 256 + c) * 256 + d)
      case _ => None
  }

  /** The index of the first `c` in `s`, if any (`strings.IndexByte`). */
  function IndexOf(s: string, c: char): (r: Option<nat>)
    ensures r.Some? ==> r.value < |s| && s[r.value] == c
    ensures r.Some? ==> forall j :: 0 <= j < r.value ==> s[j] != c
    ensures r.None? ==> forall j :: 0 <= j < |s| ==> s[j] != c
  {
    if s == [] then None
    else if s[0] == c then Some(0)
    else match IndexOf(s[1..], c)
      case None => None
      case Some(i) => Some(i + 1)
  }

  /** `net.ParseCIDR`: an address, a '/', and a non-empty decimal prefix length of at most 32. */
  function ParseCidr(s: string): (r: Option<Network>)
    ensures r.Some? ==> r.value.prefix <= 32
  {
    match IndexOf(s, '/')
    case None => None
    case Some(i) =>
      var addr, bits := s[..i], s[i + 1..];
      match ParseAddress(addr)
      case None => None
      case Some(a) =>
        if bits != [] && AllDigits(bits) && DigitsValue(bits) <= 32
        then Some(Network(a, DigitsValue(bits)))
        else None
  }

  /** `IPNet.Contains`: the address agrees with the network on the first `prefix` bits. */
  predicate NetworkContains(n: Network, ip: Address)
    requires n.prefix <= 32
  {
    ip / Pow2(32 - n.prefix) == n.base / Pow2(32 - n.prefix)
  }

  /** A "/32" network holds exactly its own address. */
  lemma HostNetwork(base: Address, ip: Address)
    ensures NetworkContains(Network(base, 32), ip) <==> ip == base
  {
  }

  lemma {:induction false} Pow2Add(a: nat, b: nat)
    ensures Pow2(a + b) == Pow2(a) * Pow2(b)
    decreases a
  {
    if a > 0 {
      Pow2Add(a - 1, b);
    }
  }

  /** A "/0" network holds every address. */
  lemma WholeSpace(base: Address, ip: Address)
    ensures NetworkContains(Network(base, 0), ip)
  {
    assert Pow2(4) == 16;
    Pow2Add(4, 4);
    Pow2Add(8, 8);
    Pow2Add(16, 16);
    assert Pow2(32) == AddressSpace;
  }

  /** The empty string (an event without that address) is no address. */
  lemma EmptyIsNoAddress()
    ensures ParseAddress("").None? && ParseCidr("").None?
  {
  }
}
