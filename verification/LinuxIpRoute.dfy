/** The address library behind the route text, as the contract the routes rely on. */
module Addresses {
  import opened Common
  import opened Tokenizers

  /** Everything that separates tokens or lines of the route text. */
  const SEPARATORS: set<char> := {' ', '\t', '\n', '\r'}

  /**
   `IPAddress::parse`, `to_string` (with the prefix), `to_s` (without) and the address an `IPAddress`
   holds before anything is assigned to it.
   */
  datatype AddressLib<!A(!new)> = AddressLib(
    parse: string -> Option<A>, toString: A -> string, toS: A -> string, blank: A)
  {
    /** An address that survives printing without its prefix. */
    ghost predicate IsHost(a: A) {
      parse(toS(a)) == Some(a)
    }

    ghost predicate Laws() {
      && (forall a: A :: parse(toString(a)) == Some(a))
      && (forall a: A :: parse(toS(a)).Some? && toS(parse(toS(a)).value) == toS(a))
      && (forall a: A :: Clean(toString(a), SEPARATORS) && toString(a) != "default")
      && (forall a: A :: Clean(toS(a), SEPARATORS))
    }
  }
}

/** Model of iproute.hpp and linux_ip_route.hpp: the text `ip route list` prints and `ip route add` takes. */
module LinuxIpRoutes {
  import opened Common
  import opened Decimals
  import opened Tokenizers
  import opened Addresses

  datatype IPRoute<A> = IPRoute(
    dest: A, via: Option<A>, dev: Option<string>, proto: Option<string>, scope: Option<string>,
    src: Option<A>, metric: Option<nat>)

  // ---------------------------------------------------------------- printing

  function Attr(key: string, value: Option<string>): string {
    if value.Some? then " " + key + " " + value.value else ""
  }

  function Plain<A(!new)>(lib: AddressLib<A>, a: Option<A>): Option<string> {
    if a.Some? then Some(lib.toS(a.value)) else None
  }

  function Number(n: Option<nat>): Option<string> {
    if n.Some? then Some(Print(n.value)) else None
  }

  function Dest<A(!new)>(lib: AddressLib<A>, dest: A): string {
    if lib.toString(dest) == "0.0.0.0/0" then "default" else lib.toString(dest)
  }

  /** One route, as `serialize` streams it. */
  function Serialize<A(!new)>(lib: AddressLib<A>, ipr: IPRoute<A>): string {
    Dest(lib, ipr.dest)
    + Attr("via", Plain(lib, ipr.via))
    + Attr("dev", ipr.dev)
    + Attr("proto", ipr.proto)
    + Attr("scope", ipr.scope)
    + Attr("src", Plain(lib, ipr.src))
    + Attr("metric", Number(ipr.metric))
  }

  /** A list of routes, one a line. */
  function SerializeAll<A(!new)>(lib: AddressLib<A>, iprs: seq<IPRoute<A>>): string {
    if iprs == [] then "" else SerializeAll(lib, iprs[..|iprs| - 1]) + Serialize(lib, iprs[|iprs| - 1]) + "\n"
  }

  method SerializeRoutes<A(!new)>(lib: AddressLib<A>, iprs: seq<IPRoute<A>>) returns (s2: string)
    ensures s2 == SerializeAll(lib, iprs)
  {
    s2 := "";
    for i := 0 to |iprs|
      invariant s2 == SerializeAll(lib, iprs[..i])
    {
      s2 := s2 + Serialize(lib, iprs[i]);
      s2 := s2 + "\n";
      assert iprs[..i + 1][..i] == iprs[..i];
    }
    assert iprs[..|iprs|] == iprs;
  }

  // ---------------------------------------------------------------- parsing, as a specification

  /** Throws stands for the exception `stoi` raises, which leaves `parse`. */
  datatype Parsed<+T> = Ok(value: T) | Err | Throws

  const INLINE: set<char> := {'\t', ' '}
  const EOL: set<char> := {'\n', '\r'}

  lemma SeparatorsAre()
    ensures INLINE == {' ', '\t'} && EOL == {'\r', '\n'} && INLINE + EOL == SEPARATORS
  {
  }

  type Pair = (string, string)

  /** The tokens after the first, two by two; a token without a partner is dropped. */
  function Pairs(ts: seq<string>): seq<Pair> {
    if |ts| < 2 then [] else [(ts[0], ts[1])] + Pairs(ts[2..])
  }

  /** The value paired with the last occurrence of `key`. */
  function Last(ps: seq<Pair>, key: string): Option<string> {
    if ps == [] then None
    else if ps[|ps| - 1].0 == key then Some(ps[|ps| - 1].1)
    else Last(ps[..|ps| - 1], key)
  }

  /** Does the value of this pair parse, if its key asks for an address or a number? */
  function Check<A(!new)>(lib: AddressLib<A>, p: Pair): Parsed<()> {
    if p.0 == "via" || p.0 == "src" then (if lib.parse(p.1).Some? then Ok(()) else Err)
    else if p.0 == "metric" then (if Stoi(p.1).Some? then Ok(()) else Throws)
    else Ok(())
  }

  /** The verdict of the first pair that does not parse. */
  function CheckAll<A(!new)>(lib: AddressLib<A>, ps: seq<Pair>): Parsed<()> {
    if ps == [] then Ok(())
    else
      var first := Check(lib, ps[0]);
      if first.Ok? then CheckAll(lib, ps[1..]) else first
  }

  function AddressOf<A(!new)>(lib: AddressLib<A>, v: Option<string>): Option<A> {
    if v.Some? then lib.parse(v.value) else None
  }

  /** `size_t metric = stoi(...)`: a negative value wraps around. */
  function MetricOf(v: Option<string>): Option<nat> {
    if v.Some? && Stoi(v.value).Some? then
      var n := Stoi(v.value).value;
      Some(if n >= 0 then n else n + WRAP)
    else None
  }

  /** The route a line describes: its first token, and for each field the last value given for it. */
  function RouteOf<A(!new)>(lib: AddressLib<A>, dest: A, ps: seq<Pair>): IPRoute<A> {
    IPRoute(dest, AddressOf(lib, Last(ps, "via")), Last(ps, "dev"), Last(ps, "proto"), Last(ps, "scope"),
            AddressOf(lib, Last(ps, "src")), MetricOf(Last(ps, "metric")))
  }

  function ParseDest<A(!new)>(lib: AddressLib<A>, t: string): Option<A> {
    lib.parse(if t == "default" then "0.0.0.0/0" else t)
  }

  /** One line, given its tokens. A line of blanks yields a route that was never assigned to. */
  function ParseTokens<A(!new)>(lib: AddressLib<A>, ts: seq<string>): Parsed<IPRoute<A>> {
    if ts == [] then Ok(RouteOf(lib, lib.blank, []))
    else
      var dest := ParseDest(lib, ts[0]);
      if dest.None? then Err
      else
        var ps := Pairs(ts[1..]);
        match CheckAll(lib, ps)
        case Err => Err
        case Throws => Throws
        case Ok(_) => Ok(RouteOf(lib, dest.value, ps))
  }

  function ParseLines<A(!new)>(lib: AddressLib<A>, lines: seq<string>): Parsed<seq<IPRoute<A>>> {
    if lines == [] then Ok([])
    else
      match ParseTokens(lib, Tokens(lines[0], INLINE))
      case Err => Err
      case Throws => Throws
      case Ok(first) =>
        match ParseLines(lib, lines[1..])
        case Err => Err
        case Throws => Throws
        case Ok(rest) => Ok([first] + rest)
  }

  function Parse<A(!new)>(lib: AddressLib<A>, text: string): Parsed<seq<IPRoute<A>>> {
    ParseLines(lib, Tokens(text, EOL))
  }

  // ---------------------------------------------------------------- parsing, as the code does it

  lemma {:induction false} PairsConcat(a: seq<string>, b: seq<string>)
    requires |a| % 2 == 0
    ensures Pairs(a + b) == Pairs(a) + Pairs(b)
  {
    if a == [] {
      assert a + b == b;
    } else {
      assert |a| >= 2 && (a + b)[0] == a[0] && (a + b)[1] == a[1];
      assert (a + b)[2..] == a[2..] + b;
      PairsConcat(a[2..], b);
      var first := [(a[0], a[1])];
      assert first + (Pairs(a[2..]) + Pairs(b)) == first + Pairs(a[2..]) + Pairs(b);
    }
  }

  lemma {:induction false} CheckAllConcat<A(!new)>(lib: AddressLib<A>, a: seq<Pair>, b: seq<Pair>)
    ensures CheckAll(lib, a + b) == if CheckAll(lib, a).Ok? then CheckAll(lib, b) else CheckAll(lib, a)
  {
    if a == [] {
      assert a + b == b;
    } else {
      CheckAllConcat(lib, a[1..], b);
      assert (a + b)[1..] == a[1..] + b;
    }
  }

  lemma LastSnoc(ps: seq<Pair>, p: Pair, key: string)
    ensures Last(ps + [p], key) == if p.0 == key then Some(p.1) else Last(ps, key)
  {
    assert (ps + [p])[..|ps|] == ps;
  }

  /** The field a pair's key names takes the pair's value. */
  function Updated<A(!new)>(lib: AddressLib<A>, r: IPRoute<A>, p: Pair): IPRoute<A> {
    match p.0
    case "via" => r.(via := lib.parse(p.1))
    case "dev" => r.(dev := Some(p.1))
    case "proto" => r.(proto := Some(p.1))
    case "scope" => r.(scope := Some(p.1))
    case "src" => r.(src := lib.parse(p.1))
    case "metric" => r.(metric := MetricOf(Some(p.1)))
    case _ => r
  }

  /** One more pair overwrites the field its key names, and nothing else. */
  lemma RouteSnoc<A(!new)>(lib: AddressLib<A>, dest: A, ps: seq<Pair>, p: Pair)
    requires Check(lib, p).Ok?
    ensures var r, r' := RouteOf(lib, dest, ps), RouteOf(lib, dest, ps + [p]);
      r' == Updated(lib, r, p)
  {
    LastSnoc(ps, p, "via");
    LastSnoc(ps, p, "dev");
    LastSnoc(ps, p, "proto");
    LastSnoc(ps, p, "scope");
    LastSnoc(ps, p, "src");
    LastSnoc(ps, p, "metric");
  }

  /** What the tokens up to a value add to the tokens before its key. */
  lemma PairCompleted(ts: seq<string>, i: nat)
    requires 2 <= i < |ts| && i % 2 == 0
    ensures Pairs(ts[1..i]) == Pairs(ts[1..i - 1])
    ensures Pairs(ts[1..i + 1]) == Pairs(ts[1..i]) + [(ts[i - 1], ts[i])]
    ensures Pairs(ts[1..]) == Pairs(ts[1..i + 1]) + Pairs(ts[i + 1..])
  {
    assert ts[1..i] == ts[1..i - 1] + [ts[i - 1]];
    PairsConcat(ts[1..i - 1], [ts[i - 1]]);
    assert ts[1..i + 1] == ts[1..i - 1] + [ts[i - 1], ts[i]];
    PairsConcat(ts[1..i - 1], [ts[i - 1], ts[i]]);
    assert ts[1..] == ts[1..i + 1] + ts[i + 1..];
    PairsConcat(ts[1..i + 1], ts[i + 1..]);
  }

  /** A failing value decides the line, whatever follows it. */
  lemma FailureDecides<A(!new)>(lib: AddressLib<A>, ts: seq<string>, i: nat)
    requires 2 <= i < |ts| && i % 2 == 0
    requires ParseDest(lib, ts[0]).Some?
    requires CheckAll(lib, Pairs(ts[1..i])).Ok? && !Check(lib, (ts[i - 1], ts[i])).Ok?
    ensures ParseTokens(lib, ts) == if Check(lib, (ts[i - 1], ts[i])).Err? then Err else Throws
  {
    PairCompleted(ts, i);
    var p := (ts[i - 1], ts[i]);
    assert Pairs(ts[1..]) == Pairs(ts[1..i]) + ([p] + Pairs(ts[i + 1..]));
    CheckAllConcat(lib, Pairs(ts[1..i]), [p] + Pairs(ts[i + 1..]));
  }

  /** A value that parses extends the line read so far by its pair. */
  lemma ValueExtends<A(!new)>(lib: AddressLib<A>, ts: seq<string>, i: nat)
    requires 2 <= i < |ts| && i % 2 == 0
    requires ParseDest(lib, ts[0]).Some?
    requires CheckAll(lib, Pairs(ts[1..i])).Ok? && Check(lib, (ts[i - 1], ts[i])).Ok?
    ensures var dest, p := ParseDest(lib, ts[0]).value, (ts[i - 1], ts[i]);
      && CheckAll(lib, Pairs(ts[1..i + 1])).Ok?
      && Pairs(ts[1..i + 1]) == Pairs(ts[1..i]) + [p]
  {
    PairCompleted(ts, i);
    CheckAllConcat(lib, Pairs(ts[1..i]), [(ts[i - 1], ts[i])]);
  }

  lemma BlankRoute<A(!new)>(lib: AddressLib<A>, dest: A)
    ensures RouteOf(lib, dest, []) == IPRoute(dest, None, None, None, None, None, None)
  {
  }

  lemma ValueExtendsOrFails<A(!new)>(lib: AddressLib<A>, ts: seq<string>, i: nat)
    requires 2 <= i < |ts| && i % 2 == 0
    requires ParseDest(lib, ts[0]).Some? && CheckAll(lib, Pairs(ts[1..i])).Ok?
    ensures var check := Check(lib, (ts[i - 1], ts[i]));
      && (check.Ok? ==>
            && CheckAll(lib, Pairs(ts[1..i + 1])).Ok?
            && Pairs(ts[1..i + 1]) == Pairs(ts[1..i]) + [(ts[i - 1], ts[i])])
      && (check.Err? ==> ParseTokens(lib, ts) == Err)
      && (check.Throws? ==> ParseTokens(lib, ts) == Throws)
  {
    if Check(lib, (ts[i - 1], ts[i])).Ok? {
      ValueExtends(lib, ts, i);
    } else {
      FailureDecides(lib, ts, i);
    }
  }

  lemma WholeTail(ts: seq<string>)
    requires ts != []
    ensures ts[1..|ts|] == ts[1..]
  {
  }

  /**
   The token loop of one line, with its flags: `first` until the destination is read, then `name` says
   whether a key or a value comes next, and `last` is the key waiting for its value. It computes the
   specification.
   */
  method ParseLine<A(!new)>(lib: AddressLib<A>, tokens: seq<string>) returns (r: Parsed<IPRoute<A>>)
    ensures r == ParseTokens(lib, tokens)
  {
    var ipr: IPRoute<A> := IPRoute(lib.blank, None, None, None, None, None, None);
    var first, name, last := true, true, "";
    BlankRoute(lib, lib.blank);
    hide Updated, Check, RouteOf, Last;
    for i := 0 to |tokens|
      invariant first <==> i == 0
      invariant first ==> name && ipr == IPRoute(lib.blank, None, None, None, None, None, None)
      invariant !first ==>
        && (name <==> i % 2 == 1) && (!name ==> last == tokens[i - 1])
        && ParseDest(lib, tokens[0]).Some? && CheckAll(lib, Pairs(tokens[1..i])).Ok?
        && ipr == RouteOf(lib, ParseDest(lib, tokens[0]).value, Pairs(tokens[1..i]))
    {
      var t := tokens[i];
      if first {
        var ipa := lib.parse(if t == "default" then "0.0.0.0/0" else t);
        if ipa.None? {
          return Err;
        }
        ipr := ipr.(dest := ipa.value);
        BlankRoute(lib, ipa.value);
        first := false;
        assert Pairs(tokens[1..1]) == [];
      } else if name {
        last := t;
        name := false;
        assert tokens[1..i + 1] == tokens[1..i] + [t];
        PairsConcat(tokens[1..i], [t]);
        assert Pairs(tokens[1..i + 1]) == Pairs(tokens[1..i]);
      } else {
        name := true;
        ValueExtendsOrFails(lib, tokens, i);
        var updated := Assign(lib, ipr, last, t);
        if !updated.Ok? {
          return updated;
        }
        RouteSnoc(lib, ParseDest(lib, tokens[0]).value, Pairs(tokens[1..i]), (last, t));
        ipr := updated.value;
      }
    }
    if tokens != [] {
      WholeTail(tokens);
    }
    return Ok(ipr);
  }

  /** The chain of comparisons on `last`, and what it does to the record. */
  method Assign<A(!new)>(lib: AddressLib<A>, ipr: IPRoute<A>, last: string, t: string) returns (r: Parsed<IPRoute<A>>)
    ensures r.Ok? <==> Check(lib, (last, t)).Ok?
    ensures r.Err? <==> Check(lib, (last, t)).Err?
    ensures r.Ok? ==> r.value == Updated(lib, ipr, (last, t))
  {
    if last == "via" {
      var via := lib.parse(t);
      if via.None? {
        return Err;
      }
      return Ok(ipr.(via := via));
    } else if last == "dev" {
      return Ok(ipr.(dev := Some(t)));
    } else if last == "proto" {
      return Ok(ipr.(proto := Some(t)));
    } else if last == "scope" {
      return Ok(ipr.(scope := Some(t)));
    } else if last == "src" {
      var src := lib.parse(t);
      if src.None? {
        return Err;
      }
      return Ok(ipr.(src := src));
    } else if last == "metric" {
      var metric := Stoi(t);
      if metric.None? {
        return Throws;
      }
      return Ok(ipr.(metric := Some(if metric.value >= 0 then metric.value else metric.value + WRAP)));
    }
    return Ok(ipr);
  }

  /** First failure wins; otherwise the lists are appended. */
  function Then<T>(a: Parsed<seq<T>>, b: Parsed<seq<T>>): Parsed<seq<T>> {
    if !a.Ok? then a else if !b.Ok? then b else Ok(a.value + b.value)
  }

  lemma {:induction false} ParseLinesConcat<A(!new)>(lib: AddressLib<A>, a: seq<string>, b: seq<string>)
    ensures ParseLines(lib, a + b) == Then(ParseLines(lib, a), ParseLines(lib, b))
  {
    hide ParseTokens, Tokens;
    if a == [] {
      assert a + b == b;
      var more := ParseLines(lib, b);
      if more.Ok? {
        assert [] + more.value == more.value;
      }
    } else {
      ParseLinesConcat(lib, a[1..], b);
      assert (a + b)[1..] == a[1..] + b;
      var first, rest, more := ParseTokens(lib, Tokens(a[0], INLINE)), ParseLines(lib, a[1..]), ParseLines(lib, b);
      if first.Ok? && rest.Ok? && more.Ok? {
        assert [first.value] + (rest.value + more.value) == ([first.value] + rest.value) + more.value;
      }
    }
  }

  lemma NoLines<A(!new)>(lib: AddressLib<A>)
    ensures ParseLines(lib, []) == Ok([])
  {
  }

  lemma ParseLinesOne<A(!new)>(lib: AddressLib<A>, line: string)
    ensures var one := ParseTokens(lib, Tokens(line, INLINE));
      ParseLines(lib, [line]) == match one
                                 case Err => Err
                                 case Throws => Throws
                                 case Ok(ipr) => Ok([ipr])
  {
    hide ParseTokens, Tokens;
    assert [line][1..] == [];
    var one := ParseTokens(lib, Tokens(line, INLINE));
    if one.Ok? {
      assert [one.value] + [] == [one.value];
    }
  }

  /** `parse`: line by line, leaving at the first line that fails. */
  method ParseText<A(!new)>(lib: AddressLib<A>, text: string) returns (r: Parsed<seq<IPRoute<A>>>)
    ensures r == Parse(lib, text)
  {
    hide ParseTokens, ParseLines, Tokens;
    var lines := Tokens(text, EOL);
    var ret: seq<IPRoute<A>> := [];
    assert ParseLines(lib, lines[..0]) == Ok(ret) by {
      NoLines(lib);
    }
    for n := 0 to |lines|
      invariant ParseLines(lib, lines[..n]) == Ok(ret)
    {
      var line := ParseLine(lib, Tokens(lines[n], INLINE));
      assert lines == lines[..n + 1] + lines[n + 1..];
      assert lines[..n + 1] == lines[..n] + [lines[n]];
      ParseLinesConcat(lib, lines[..n], [lines[n]]);
      ParseLinesOne(lib, lines[n]);
      ParseLinesConcat(lib, lines[..n + 1], lines[n + 1..]);
      match line {
        case Err => return Err;
        case Throws => return Throws;
        case Ok(ipr) => ret := ret + [ipr];
      }
    }
    assert lines[..|lines|] == lines;
    return Ok(ret);
  }
}
