/** An instance of the address contract: IPv4 addresses in dotted-quad notation with a prefix length. */
module Ipv4Addresses {
  import opened Common
  import opened Decimals
  import opened Tokenizers
  import opened Addresses

  newtype Prefix = x: int | 0 <= x <= 32

  datatype Ipv4 = Ipv4(a: byte, b: byte, c: byte, d: byte, prefix: Prefix)

  function ToS(q: Ipv4): string {
    Print(q.a as nat) + "." + (Print(q.b as nat) + "." + (Print(q.c as nat) + "." + Print(q.d as nat)))
  }

  function ToString(q: Ipv4): string {
    ToS(q) + "/" + Print(q.prefix as nat)
  }

  /** The parts between the separators, empty ones included. */
  function Split(s: string, sep: char): (parts: seq<string>)
    ensures parts != []
  {
    var n := Run(s, {sep});
    if n == |s| then [s] else [s[..n]] + Split(s[n + 1..], sep)
  }

  /** A decimal number of at most `limit`. */
  function UpTo(s: string, limit: nat): (n: Option<nat>)
    ensures n.Some? ==> n.value <= limit
  {
    if s != "" && AllDigits(s) && Value(s) <= limit then Some(Value(s)) else None
  }

  function Octet(s: string): Option<byte> {
    var n := UpTo(s, 255);
    if n.Some? then Some(n.value as byte) else None
  }

  function ParseQuad(s: string, prefix: Prefix): Option<Ipv4> {
    var parts := Split(s, '.');
    if |parts| != 4 then None
    else
      var a, b, c, d := Octet(parts[0]), Octet(parts[1]), Octet(parts[2]), Octet(parts[3]);
      if a.Some? && b.Some? && c.Some? && d.Some? then Some(Ipv4(a.value, b.value, c.value, d.value, prefix)) else None
  }

  /** Without a prefix the address is a host address. */
  function ParseIpv4(s: string): Option<Ipv4> {
    var parts := Split(s, '/');
    if |parts| == 1 then ParseQuad(parts[0], 32)
    else if |parts| == 2 && UpTo(parts[1], 32).Some? then ParseQuad(parts[0], UpTo(parts[1], 32).value as Prefix)
    else None
  }

  predicate Without(s: string, c: char) {
    forall i :: 0 <= i < |s| ==> s[i] != c
  }

  lemma {:induction false} RunWithout(t: string, rest: string, sep: char)
    requires Without(t, sep) && (rest == "" || rest[0] == sep)
    ensures Run(t + rest, {sep}) == |t|
  {
    if t == "" {
      assert t + rest == rest;
    } else {
      assert (t + rest)[1..] == t[1..] + rest;
      RunWithout(t[1..], rest, sep);
    }
  }

  lemma SplitNone(t: string, sep: char)
    requires Without(t, sep)
    ensures Split(t, sep) == [t]
  {
    RunWithout(t, "", sep);
    assert t + "" == t;
  }

  lemma SplitFirst(t: string, rest: string, sep: char)
    requires Without(t, sep)
    ensures Split(t + [sep] + rest, sep) == [t] + Split(rest, sep)
  {
    var s := t + ([sep] + rest);
    RunWithout(t, [sep] + rest, sep);
    assert t + [sep] + rest == s;
    assert s[..|t|] == t && s[|t| + 1..] == rest;
  }

  lemma DigitsWithout(n: nat, c: char)
    requires !IsDigit(c)
    ensures Without(Print(n), c)
  {
    assert AllDigits(Print(n));
  }

  lemma UpToPrint(n: nat, limit: nat)
    ensures UpTo(Print(n), limit) == if n <= limit then Some(n) else None
  {
    ValuePrint(n);
  }

  lemma OctetPrint(b: byte)
    ensures Octet(Print(b as nat)) == Some(b)
    ensures Without(Print(b as nat), '.')
  {
    UpToPrint(b as nat, 255);
    DigitsWithout(b as nat, '.');
  }

  lemma SplitFour(a: string, b: string, c: string, d: string)
    requires Without(a, '.') && Without(b, '.') && Without(c, '.') && Without(d, '.')
    ensures Split(a + "." + (b + "." + (c + "." + d)), '.') == [a, b, c, d]
  {
    hide Split, Without;
    SplitNone(d, '.');
    SplitFirst(c, d, '.');
    SplitFirst(b, c + "." + d, '.');
    SplitFirst(a, b + "." + (c + "." + d), '.');
  }

  lemma QuadRoundTrip(q: Ipv4, prefix: Prefix)
    ensures ParseQuad(ToS(q), prefix) == Some(q.(prefix := prefix))
  {
    hide Print, Octet, Without, Split;
    OctetPrint(q.a);
    OctetPrint(q.b);
    OctetPrint(q.c);
    OctetPrint(q.d);
    SplitFour(Print(q.a as nat), Print(q.b as nat), Print(q.c as nat), Print(q.d as nat));
  }

  /** The characters of a dotted quad. */
  predicate Dotted(s: string) {
    forall i :: 0 <= i < |s| ==> IsDigit(s[i]) || s[i] == '.'
  }

  lemma ToSDotted(q: Ipv4)
    ensures Dotted(ToS(q)) && ToS(q) != "" && IsDigit(ToS(q)[0])
  {
    var a, b, c, d := Print(q.a as nat), Print(q.b as nat), Print(q.c as nat), Print(q.d as nat);
    hide Print;
    var cd := c + "." + d;
    assert Dotted(cd);
    var bcd := b + "." + cd;
    assert Dotted(bcd);
  }

  lemma DottedIsClean(s: string, tail: string)
    requires Dotted(s) && s != "" && AllDigits(tail)
    ensures Clean(s, SEPARATORS) && Clean(s + "/" + tail, SEPARATORS) && Without(s, '/')
  {
  }

  const IPV4: AddressLib<Ipv4> := AddressLib(ParseIpv4, ToString, ToS, Ipv4(0, 0, 0, 0, 0))

  lemma ToStringRoundTrip(q: Ipv4)
    ensures ParseIpv4(ToString(q)) == Some(q)
    ensures ParseIpv4(ToS(q)) == Some(q.(prefix := 32))
  {
    hide ToS, ParseQuad, Print;
    var prefix := Print(q.prefix as nat);
    ToSDotted(q);
    DottedIsClean(ToS(q), prefix);
    DigitsWithout(q.prefix as nat, '/');
    SplitNone(ToS(q), '/');
    SplitNone(prefix, '/');
    SplitFirst(ToS(q), prefix, '/');
    UpToPrint(q.prefix as nat, 32);
    QuadRoundTrip(q, q.prefix);
    QuadRoundTrip(q, 32);
  }

  lemma TextIsClean(q: Ipv4)
    ensures Clean(ToString(q), SEPARATORS) && Clean(ToS(q), SEPARATORS) && ToString(q) != "default"
  {
    hide ToS, Print;
    ToSDotted(q);
    DottedIsClean(ToS(q), Print(q.prefix as nat));
    assert ToString(q)[0] == ToS(q)[0];
  }

  /** The dotted-quad notation meets every law the route theorems ask of the address library. */
  lemma Ipv4Lawful()
    ensures IPV4.Laws()
    ensures forall q: Ipv4 :: IPV4.IsHost(q) <==> q.prefix == 32
  {
    hide ToS, ParseIpv4, ToString, Clean;
    forall q: Ipv4
      ensures ParseIpv4(ToString(q)) == Some(q)
      ensures ParseIpv4(ToS(q)) == Some(q.(prefix := 32)) && ToS(q.(prefix := 32)) == ToS(q)
      ensures Clean(ToString(q), SEPARATORS) && Clean(ToS(q), SEPARATORS) && ToString(q) != "default"
    {
      ToStringRoundTrip(q);
      TextIsClean(q);
      SameQuad(q);
    }
  }

  lemma SameQuad(q: Ipv4)
    ensures ToS(q.(prefix := 32)) == ToS(q)
  {
  }
}

/** The route theorems for IPv4, with nothing assumed about the address library. */
module Ipv4Routes {
  import opened Common
  import opened Decimals
  import opened Addresses
  import opened LinuxIpRoutes
  import opened RouteTheorems
  import opened Ipv4Addresses

  predicate HostPrefixes(r: IPRoute<Ipv4>) {
    (r.via.Some? ==> r.via.value.prefix == 32) && (r.src.Some? ==> r.src.value.prefix == 32)
  }

  lemma HostedByPrefix(r: IPRoute<Ipv4>)
    ensures IPV4.Laws() && (Hosted(IPV4, r) <==> HostPrefixes(r))
  {
    hide AddressLib.IsHost, AddressLib.Laws;
    Ipv4Lawful();
  }

  lemma Ipv4RoundTripExactly(rs: seq<IPRoute<Ipv4>>)
    ensures Parse(IPV4, SerializeAll(IPV4, rs)) == Ok(rs) <==>
      forall n :: 0 <= n < |rs| ==> Wordy(rs[n]) && Measured(rs[n]) && HostPrefixes(rs[n])
  {
    hide *;
    assert IPV4.Laws() by {
      Ipv4Lawful();
    }
    RoundTripExactly(IPV4, rs);
    forall n | 0 <= n < |rs|
      ensures Hosted(IPV4, rs[n]) <==> HostPrefixes(rs[n])
    {
      HostedByPrefix(rs[n]);
    }
  }

  // ---------------------------------------------------------------- the default route

  const DEFAULT_DEV := IPRoute(Ipv4(0, 0, 0, 0, 0), None, Some("eth0"), None, None, None, None)

  lemma ZeroPrinted()
    ensures ToString(Ipv4(0, 0, 0, 0, 0)) == "0.0.0.0/0"
  {
    assert Print(0) == "0";
    assert "0" + "." + ("0" + "." + ("0" + "." + "0")) == "0.0.0.0";
  }

  lemma DefaultPrinted()
    ensures Serialize(IPV4, DEFAULT_DEV) == "default dev eth0"
  {
    ZeroPrinted();
    hide ToS, ToString, ParseIpv4;
    var dev := Attr("dev", DEFAULT_DEV.dev);
    assert dev == " dev eth0" && Dest(IPV4, DEFAULT_DEV.dest) == "default";
    assert Serialize(IPV4, DEFAULT_DEV) == "default" + dev;
    hide *;
  }

  lemma DefaultIsPlain()
    ensures Wordy(DEFAULT_DEV) && Measured(DEFAULT_DEV) && HostPrefixes(DEFAULT_DEV)
  {
  }

  /** The default route of a listing, printed as `ip route list` prints it, and read back. */
  lemma DefaultRoute()
    ensures Serialize(IPV4, DEFAULT_DEV) == "default dev eth0"
    ensures Parse(IPV4, SerializeAll(IPV4, [DEFAULT_DEV])) == Ok([DEFAULT_DEV])
  {
    hide *;
    DefaultPrinted();
    DefaultIsPlain();
    Ipv4RoundTripExactly([DEFAULT_DEV]);
  }
}
