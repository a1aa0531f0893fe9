/** Laws of the route text: concatenation, reordering, and the round trip with its exact condition. */
module RouteTheorems {
  import opened Common
  import opened Decimals
  import opened Tokenizers
  import opened Addresses
  import opened LinuxIpRoutes

  // ---------------------------------------------------------------- concatenation

  /**
   If `a` is empty or ends in a line end (or `b` is empty or starts with one), parsing `a + b` is
   parsing `a` and then `b`: both lists in order, or the failure of the earliest failing part.
   */
  lemma ParseConcat<A(!new)>(lib: AddressLib<A>, a: string, b: string)
    requires Seam(a, b, EOL)
    ensures Parse(lib, a + b) == Then(Parse(lib, a), Parse(lib, b))
  {
    hide ParseLines, Tokens;
    TokensConcat(a, b, EOL);
    ParseLinesConcat(lib, Tokens(a, EOL), Tokens(b, EOL));
  }

  /** Without a seam the last line of `a` and the first of `b` become one. */
  lemma {:induction false} LinesGlued(a: string, b: string)
    requires !Seam(a, b, EOL)
    ensures |Tokens(a + b, EOL)| == |Tokens(a, EOL)| + |Tokens(b, EOL)| - 1
    decreases |a|
  {
    var n := Run(a, EOL);
    if n == |a| {
      OneLineGlued(a, b);
    } else {
      var step := if n == 0 then 1 else n;
      if n > 0 {
        RunInside(a, b);
      }
      hide Run;
      assert !Seam(a[step..], b, EOL);
      LinesGlued(a[step..], b);
      assert (a + b)[step..] == a[step..] + b;
    }
  }

  lemma OneLineGlued(a: string, b: string)
    requires !Seam(a, b, EOL) && Run(a, EOL) == |a|
    ensures |Tokens(a + b, EOL)| == |Tokens(b, EOL)| && |Tokens(a, EOL)| == 1
  {
    var n, m := |a|, Run(b, EOL);
    RunGlued(a, b);
    hide Run;
    assert a[n..] == "" && (a + b)[n + m..] == b[m..];
  }

  lemma {:induction false} RunGlued(a: string, b: string)
    requires Run(a, EOL) == |a|
    ensures Run(a + b, EOL) == |a| + Run(b, EOL)
  {
    if a == "" {
      assert a + b == b;
    } else {
      assert (a + b)[1..] == a[1..] + b;
      RunGlued(a[1..], b);
    }
  }

  lemma {:induction false} RunInside(a: string, b: string)
    requires Run(a, EOL) < |a|
    ensures Run(a + b, EOL) == Run(a, EOL)
  {
    if a[0] !in EOL {
      assert (a + b)[1..] == a[1..] + b;
      RunInside(a[1..], b);
    }
  }

  lemma {:induction false} OneRouteALine<A(!new)>(lib: AddressLib<A>, lines: seq<string>)
    requires ParseLines(lib, lines).Ok?
    ensures |ParseLines(lib, lines).value| == |lines|
  {
    hide ParseTokens, Tokens;
    if lines != [] {
      OneRouteALine(lib, lines[1..]);
    }
  }

  /** For parts that parse, the seam is not only sufficient: exactly then do the two lists simply join. */
  lemma ParseConcatExactly<A(!new)>(lib: AddressLib<A>, a: string, b: string)
    requires Parse(lib, a).Ok? && Parse(lib, b).Ok?
    ensures Parse(lib, a + b) == Ok(Parse(lib, a).value + Parse(lib, b).value) <==> Seam(a, b, EOL)
  {
    hide ParseLines, Tokens;
    if Seam(a, b, EOL) {
      ParseConcat(lib, a, b);
    } else {
      LinesGlued(a, b);
      OneRouteALine(lib, Tokens(a, EOL));
      OneRouteALine(lib, Tokens(b, EOL));
      if Parse(lib, a + b).Ok? {
        OneRouteALine(lib, Tokens(a + b, EOL));
      }
    }
  }

  /** What `SystemCmd::run` reports. */
  datatype Ran = Ran(ok: bool, exitCode: int, sout: string)

  /** `read`: the IPv4 listing and the IPv6 listing, parsed as one text. */
  method Read<A(!new)>(lib: AddressLib<A>, srv4: Ran, srv6: Ran) returns (r: Parsed<seq<IPRoute<A>>>)
    ensures !srv4.ok || !srv6.ok || srv4.exitCode != 0 || srv6.exitCode != 0 ==> r == Err
    ensures srv4.ok && srv6.ok && srv4.exitCode == 0 == srv6.exitCode ==>
      && r == Parse(lib, srv4.sout + srv6.sout)
      && (Seam(srv4.sout, srv6.sout, EOL) ==> r == Then(Parse(lib, srv4.sout), Parse(lib, srv6.sout)))
  {
    if !srv4.ok || !srv6.ok || srv4.exitCode != 0 || srv6.exitCode != 0 {
      return Err;
    }
    if Seam(srv4.sout, srv6.sout, EOL) {
      ParseConcat(lib, srv4.sout, srv6.sout);
    }
    r := ParseText(lib, srv4.sout + srv6.sout);
  }

  // ---------------------------------------------------------------- reordering

  const KEYS: set<string> := {"via", "dev", "proto", "scope", "src", "metric"}

  /** No field is given twice; unknown keys may be. */
  ghost predicate KeysOnce(ps: seq<Pair>) {
    forall i, j :: 0 <= i < j < |ps| && ps[i].0 in KEYS ==> ps[i].0 != ps[j].0
  }

  lemma {:induction false} LastFound(ps: seq<Pair>, key: string)
    ensures Last(ps, key).None? <==> forall i :: 0 <= i < |ps| ==> ps[i].0 != key
    ensures Last(ps, key).Some? ==> (key, Last(ps, key).value) in ps
  {
    if ps != [] {
      LastFound(ps[..|ps| - 1], key);
      assert ps == ps[..|ps| - 1] + [ps[|ps| - 1]];
    }
  }

  /** With no field given twice, a field is found by its pair alone, wherever that stands. */
  lemma LastByMember(ps: seq<Pair>, key: string, value: string)
    requires KeysOnce(ps) && key in KEYS
    ensures Last(ps, key) == Some(value) <==> (key, value) in ps
  {
    LastFound(ps, key);
    if (key, value) in ps {
      var i :| 0 <= i < |ps| && ps[i] == (key, value);
      assert ps[i].0 == key;
      var found := (key, Last(ps, key).value);
      var j :| 0 <= j < |ps| && ps[j] == found;
    }
  }

  lemma {:induction false} CheckAllOk<A(!new)>(lib: AddressLib<A>, ps: seq<Pair>)
    ensures CheckAll(lib, ps).Ok? <==> forall p :: p in ps ==> Check(lib, p).Ok?
  {
    if ps != [] {
      CheckAllOk(lib, ps[1..]);
      assert ps == [ps[0]] + ps[1..];
    }
  }

  lemma SameMembers(ps: seq<Pair>, qs: seq<Pair>)
    requires multiset(ps) == multiset(qs)
    ensures forall p :: p in ps <==> p in qs
  {
    forall p
      ensures p in ps <==> p in qs
    {
      assert p in ps <==> p in multiset(ps);
      assert p in qs <==> p in multiset(qs);
    }
  }

  lemma {:induction false} CountOnce(ps: seq<Pair>, p: Pair)
    requires forall i, j :: 0 <= i < j < |ps| && ps[i] == p ==> ps[j] != p
    ensures multiset(ps)[p] <= 1
  {
    if ps != [] {
      var init, last := ps[..|ps| - 1], ps[|ps| - 1];
      assert ps == init + [last];
      CountOnce(init, p);
      if last == p {
        assert p !in init;
        assert multiset(init)[p] == 0;
      }
    }
  }

  lemma CountTwice(ps: seq<Pair>, i: nat, j: nat)
    requires i < j < |ps| && ps[i] == ps[j]
    ensures multiset(ps)[ps[i]] >= 2
  {
    assert ps == ps[..i] + [ps[i]] + ps[i + 1..j] + [ps[j]] + ps[j + 1..];
  }

  /** Giving each field once does not depend on the order. */
  lemma KeysOnceReordered(ps: seq<Pair>, qs: seq<Pair>)
    requires multiset(ps) == multiset(qs) && KeysOnce(ps)
    ensures KeysOnce(qs)
  {
    SameMembers(ps, qs);
    forall i, j | 0 <= i < j < |qs| && qs[i].0 in KEYS
      ensures qs[i].0 != qs[j].0
    {
      assert qs[i] in qs && qs[j] in qs;
      if qs[i] == qs[j] {
        CountOnce(ps, qs[i]);
        CountTwice(qs, i, j);
        assert false;
      }
    }
  }

  lemma SameLast(ps: seq<Pair>, qs: seq<Pair>, key: string)
    requires KeysOnce(ps) && KeysOnce(qs) && key in KEYS
    requires forall p :: p in ps <==> p in qs
    ensures Last(ps, key) == Last(qs, key)
  {
    var a, b := Last(ps, key), Last(qs, key);
    if a.Some? {
      LastByMember(ps, key, a.value);
      LastByMember(qs, key, a.value);
    }
    if b.Some? {
      LastByMember(ps, key, b.value);
      LastByMember(qs, key, b.value);
    }
  }

  /**
   Reordering the pairs of a line whose fields are each given once changes neither whether the line
   parses nor the route it yields.
   */
  lemma ReorderPairs<A(!new)>(lib: AddressLib<A>, dest: string, ts: seq<string>, us: seq<string>)
    requires multiset(Pairs(ts)) == multiset(Pairs(us))
    requires KeysOnce(Pairs(ts))
    ensures var a, b := ParseTokens(lib, [dest] + ts), ParseTokens(lib, [dest] + us);
      (a.Ok? <==> b.Ok?) && (a.Ok? ==> a == b)
  {
    var ps, qs := Pairs(ts), Pairs(us);
    assert ([dest] + ts)[1..] == ts && ([dest] + us)[1..] == us;
    SameMembers(ps, qs);
    KeysOnceReordered(ps, qs);
    CheckAllOk(lib, ps);
    CheckAllOk(lib, qs);
    forall key | key in KEYS
      ensures Last(ps, key) == Last(qs, key)
    {
      SameLast(ps, qs, key);
    }
    assert {"via", "dev", "proto", "scope", "src", "metric"} == KEYS;
    hide Last, CheckAll, Check;
  }

  /** A pair whose key is no field, and a key without a value at the end, leave the line's meaning alone. */
  lemma UnknownIgnored<A(!new)>(lib: AddressLib<A>, dest: string, ts: seq<string>, key: string, value: string,
                                us: seq<string>)
    requires |ts| % 2 == 0 && key !in KEYS
    ensures ParseTokens(lib, [dest] + (ts + [key, value] + us)) == ParseTokens(lib, [dest] + (ts + us))
    ensures ParseTokens(lib, [dest] + (ts + [key])) == ParseTokens(lib, [dest] + ts)
  {
    UnknownPairs(ts, key, value, us);
    UnknownDropped(lib, Pairs(ts), (key, value), Pairs(us));
    hide CheckAll, Pairs, RouteOf;
    TailOf(dest, ts + [key, value] + us);
    TailOf(dest, ts + us);
    TailOf(dest, ts + [key]);
    TailOf(dest, ts);
  }

  lemma TailOf(dest: string, rest: seq<string>)
    ensures ([dest] + rest)[1..] == rest
  {
  }

  lemma UnknownPairs(ts: seq<string>, key: string, value: string, us: seq<string>)
    requires |ts| % 2 == 0
    ensures Pairs(ts + [key, value] + us) == Pairs(ts) + [(key, value)] + Pairs(us)
    ensures Pairs(ts + us) == Pairs(ts) + Pairs(us) && Pairs(ts + [key]) == Pairs(ts)
  {
    PairsConcat(ts, us);
    PairsConcat(ts, [key, value] + us);
    PairsConcat(ts, [key]);
    assert ts + [key, value] + us == ts + ([key, value] + us);
    assert ([key, value] + us)[2..] == us;
    assert Pairs([key]) == [] && Pairs(ts) + [] == Pairs(ts);
    assert Pairs(ts) + ([(key, value)] + Pairs(us)) == Pairs(ts) + [(key, value)] + Pairs(us);
  }

  lemma UnknownDropped<A(!new)>(lib: AddressLib<A>, ps: seq<Pair>, p: Pair, qs: seq<Pair>)
    requires p.0 !in KEYS
    ensures CheckAll(lib, ps + [p] + qs) == CheckAll(lib, ps + qs)
    ensures forall dest: A :: RouteOf(lib, dest, ps + [p] + qs) == RouteOf(lib, dest, ps + qs)
  {
    CheckAllConcat(lib, ps, qs);
    CheckAllConcat(lib, ps + [p], qs);
    CheckAllConcat(lib, ps, [p]);
    assert CheckAll(lib, [p]).Ok? by {
      assert [p][1..] == [];
    }
    forall key | key in KEYS
      ensures Last(ps + [p] + qs, key) == Last(ps + qs, key)
    {
      LastConcat(ps + [p], qs, key);
      LastConcat(ps, qs, key);
      LastSnoc(ps, p, key);
    }
    assert KEYS == {"via", "dev", "proto", "scope", "src", "metric"};
    hide Last, CheckAll;
  }

  // ---------------------------------------------------------------- what a parsed route can be

  /** A word that is one token of the text. */
  predicate Word(v: Option<string>) {
    v.Some? ==> Clean(v.value, SEPARATORS)
  }

  /** Every name in the route is one word. */
  predicate Wordy<A>(r: IPRoute<A>) {
    Word(r.dev) && Word(r.proto) && Word(r.scope)
  }

  /** The metric fits the `int` it is read into. */
  predicate Measured<A>(r: IPRoute<A>) {
    r.metric.Some? ==> r.metric.value < INT_LIMIT
  }

  /** Gateway and source are host addresses. */
  ghost predicate Hosted<A(!new)>(lib: AddressLib<A>, r: IPRoute<A>) {
    (r.via.Some? ==> lib.IsHost(r.via.value)) && (r.src.Some? ==> lib.IsHost(r.src.value))
  }

  predicate AllClean(ts: seq<string>) {
    forall k :: 0 <= k < |ts| ==> Clean(ts[k], SEPARATORS)
  }

  lemma {:induction false} PairsAreClean(ts: seq<string>)
    requires AllClean(ts)
    ensures forall p :: p in Pairs(ts) ==> Clean(p.1, SEPARATORS)
  {
    if |ts| >= 2 {
      PairsAreClean(ts[2..]);
    }
  }

  /** The names in a parsed line are words, because they are tokens of it. */
  lemma ParsedIsWordy<A(!new)>(lib: AddressLib<A>, ts: seq<string>)
    requires AllClean(ts) && ParseTokens(lib, ts).Ok?
    ensures Wordy(ParseTokens(lib, ts).value)
  {
    if ts != [] {
      var ps := Pairs(ts[1..]);
      PairsAreClean(ts[1..]);
      LastFound(ps, "dev");
      LastFound(ps, "proto");
      LastFound(ps, "scope");
    }
  }

  /** Tokens of a line of the text contain neither kind of separator. */
  lemma LineTokensAreClean(text: string, n: nat)
    requires n < |Tokens(text, EOL)|
    ensures AllClean(Tokens(Tokens(text, EOL)[n], INLINE))
  {
    var line := Tokens(text, EOL)[n];
    TokensAreClean(text, EOL);
    TokensAreClean(line, INLINE);
    TokensFrom(line, INLINE, EOL);
  }

  lemma {:induction false} LinesAreWordy<A(!new)>(lib: AddressLib<A>, lines: seq<string>)
    requires forall n :: 0 <= n < |lines| ==> AllClean(Tokens(lines[n], INLINE))
    requires ParseLines(lib, lines).Ok?
    ensures |ParseLines(lib, lines).value| == |lines|
    ensures forall n :: 0 <= n < |lines| ==>
      && Wordy(ParseLines(lib, lines).value[n])
      && ParseTokens(lib, Tokens(lines[n], INLINE)) == Ok(ParseLines(lib, lines).value[n])
  {
    hide ParseTokens, Tokens, Wordy, AllClean;
    if lines != [] {
      ParsedIsWordy(lib, Tokens(lines[0], INLINE));
      LinesAreWordy(lib, lines[1..]);
    }
  }

  /** Whatever text it comes from, a parsed route has words for names. */
  lemma ParseIsWordy<A(!new)>(lib: AddressLib<A>, text: string)
    requires Parse(lib, text).Ok?
    ensures forall n :: 0 <= n < |Parse(lib, text).value| ==> Wordy(Parse(lib, text).value[n])
  {
    var lines := Tokens(text, EOL);
    forall n | 0 <= n < |lines|
      ensures AllClean(Tokens(lines[n], INLINE))
    {
      LineTokensAreClean(text, n);
    }
    LinesAreWordy(lib, lines);
  }

  // ---------------------------------------------------------------- the round trip

  function Opt(key: string, value: Option<string>): seq<Pair> {
    if value.Some? then [(key, value.value)] else []
  }

  /** The pairs a route is printed as. */
  function Attrs<A(!new)>(lib: AddressLib<A>, r: IPRoute<A>): seq<Pair> {
    Opt("via", Plain(lib, r.via)) + Opt("dev", r.dev) + Opt("proto", r.proto) + Opt("scope", r.scope)
    + Opt("src", Plain(lib, r.src)) + Opt("metric", Number(r.metric))
  }

  function Flat(ps: seq<Pair>): seq<string> {
    if ps == [] then [] else Flat(ps[..|ps| - 1]) + [ps[|ps| - 1].0, ps[|ps| - 1].1]
  }

  lemma {:induction false} FlatConcat(a: seq<Pair>, b: seq<Pair>)
    ensures Flat(a + b) == Flat(a) + Flat(b)
  {
    if b == [] {
      assert a + b == a;
    } else {
      FlatConcat(a, b[..|b| - 1]);
      assert (a + b)[..|a + b| - 1] == a + b[..|b| - 1];
    }
  }

  lemma {:induction false} PairsFlat(ps: seq<Pair>)
    ensures Pairs(Flat(ps)) == ps && |Flat(ps)| == 2 * |ps|
  {
    if ps != [] {
      var init, last := ps[..|ps| - 1], ps[|ps| - 1];
      PairsFlat(init);
      PairsConcat(Flat(init), [last.0, last.1]);
      assert ps == init + [last];
    }
  }

  /** A route's line, token by token. */
  function LineTokens<A(!new)>(lib: AddressLib<A>, r: IPRoute<A>): seq<string> {
    [Dest(lib, r.dest)] + Flat(Attrs(lib, r))
  }

  lemma JoinAttr(ts: seq<string>, key: string, value: Option<string>)
    requires ts != []
    ensures Join(ts + Flat(Opt(key, value)), ' ') == Join(ts, ' ') + Attr(key, value)
  {
    if value.Some? {
      JoinTwo(ts, key, value.value, ' ');
      assert Flat(Opt(key, value)) == [key, value.value] by {
        assert Opt(key, value)[..0] == [];
      }
      assert Join(ts, ' ') + [' '] + key + [' '] + value.value == Join(ts, ' ') + (" " + key + " " + value.value);
    } else {
      assert ts + Flat(Opt(key, value)) == ts;
    }
  }

  /** The streamed text is the tokens with one blank between them. */
  lemma SerializeJoins<A(!new)>(lib: AddressLib<A>, r: IPRoute<A>)
    ensures Serialize(lib, r) == Join(LineTokens(lib, r), ' ')
  {
    hide Attr, Join, Flat, Opt, Dest, Plain, Number;
    var v, d, p := Opt("via", Plain(lib, r.via)), Opt("dev", r.dev), Opt("proto", r.proto);
    var c, s, m := Opt("scope", r.scope), Opt("src", Plain(lib, r.src)), Opt("metric", Number(r.metric));
    FlatConcat(v, d);
    FlatConcat(v + d, p);
    FlatConcat(v + d + p, c);
    FlatConcat(v + d + p + c, s);
    FlatConcat(v + d + p + c + s, m);
    var t0 := [Dest(lib, r.dest)];
    var t1 := t0 + Flat(v);
    var t2 := t1 + Flat(d);
    var t3 := t2 + Flat(p);
    var t4 := t3 + Flat(c);
    var t5 := t4 + Flat(s);
    var t6 := t5 + Flat(m);
    assert LineTokens(lib, r) == t6;
    JoinAttr(t0, "via", Plain(lib, r.via));
    JoinAttr(t1, "dev", r.dev);
    JoinAttr(t2, "proto", r.proto);
    JoinAttr(t3, "scope", r.scope);
    JoinAttr(t4, "src", Plain(lib, r.src));
    JoinAttr(t5, "metric", Number(r.metric));
    assert Join(t0, ' ') == t0[0] by {
      JoinOne(t0[0]);
    }
  }

  lemma JoinOne(t: string)
    ensures Join([t], ' ') == t
  {
  }

  lemma DigitsClean(n: nat)
    ensures Clean(Print(n), SEPARATORS)
  {
    forall i | 0 <= i < |Print(n)|
      ensures Print(n)[i] !in SEPARATORS
    {
      assert IsDigit(Print(n)[i]);
    }
  }

  predicate CleanPair(p: Pair) {
    Clean(p.0, SEPARATORS) && Clean(p.1, SEPARATORS)
  }

  lemma {:induction false} FlatClean(ps: seq<Pair>)
    requires forall p :: p in ps ==> CleanPair(p)
    ensures AllClean(Flat(ps))
  {
    if ps != [] {
      FlatClean(ps[..|ps| - 1]);
      assert ps[|ps| - 1] in ps;
    }
  }

  lemma OptClean(key: string, value: Option<string>)
    requires Clean(key, SEPARATORS) && Word(value)
    ensures forall p :: p in Opt(key, value) ==> CleanPair(p)
  {
  }

  lemma KeysClean()
    ensures Clean("default", SEPARATORS) && Clean("via", SEPARATORS) && Clean("dev", SEPARATORS)
    ensures Clean("proto", SEPARATORS)
    ensures Clean("scope", SEPARATORS) && Clean("src", SEPARATORS) && Clean("metric", SEPARATORS)
  {
  }

  lemma PartsAreWords<A(!new)>(lib: AddressLib<A>, r: IPRoute<A>)
    requires lib.Laws()
    ensures Word(Plain(lib, r.via)) && Word(Plain(lib, r.src)) && Word(Number(r.metric))
    ensures Clean(Dest(lib, r.dest), SEPARATORS)
  {
    hide Clean;
    KeysClean();
    if r.metric.Some? {
      DigitsClean(r.metric.value);
    }
  }

  lemma LineTokensClean<A(!new)>(lib: AddressLib<A>, r: IPRoute<A>)
    requires lib.Laws() && Wordy(r)
    ensures AllClean(LineTokens(lib, r))
  {
    hide Clean, Opt, Plain, Number, Word, Dest, Flat, CleanPair;
    PartsAreWords(lib, r);
    KeysClean();
    OptClean("via", Plain(lib, r.via));
    OptClean("dev", r.dev);
    OptClean("proto", r.proto);
    OptClean("scope", r.scope);
    OptClean("src", Plain(lib, r.src));
    OptClean("metric", Number(r.metric));
    FlatClean(Attrs(lib, r));
  }

  lemma {:induction false} JoinClean(ts: seq<string>)
    requires AllClean(ts) && ts != []
    ensures Clean(Join(ts, ' '), EOL)
  {
    if |ts| > 1 {
      JoinClean(ts[..|ts| - 1]);
    }
  }

  /** A printed route is one line, and its tokens are the ones it was made of. */
  lemma SerializedLine<A(!new)>(lib: AddressLib<A>, r: IPRoute<A>)
    requires lib.Laws() && Wordy(r)
    ensures Clean(Serialize(lib, r), EOL)
    ensures Tokens(Serialize(lib, r), INLINE) == LineTokens(lib, r)
  {
    hide Serialize, Wordy, Tokens, Join;
    var ts := LineTokens(lib, r);
    SerializeJoins(lib, r);
    LineTokensClean(lib, r);
    JoinClean(ts);
    assert ts != [];
    hide LineTokens;
    forall k | 0 <= k < |ts|
      ensures Clean(ts[k], INLINE)
    {
      assert Clean(ts[k], SEPARATORS);
    }
    TokensJoin(ts, ' ', INLINE);
  }

  lemma {:induction false} LastConcat(a: seq<Pair>, b: seq<Pair>, key: string)
    ensures Last(a + b, key) == if Last(b, key).Some? then Last(b, key) else Last(a, key)
  {
    if b == [] {
      assert a + b == a;
    } else {
      LastConcat(a, b[..|b| - 1], key);
      assert (a + b)[..|a + b| - 1] == a + b[..|b| - 1];
    }
  }

  lemma LastOpt(k: string, value: Option<string>, key: string)
    ensures Last(Opt(k, value), key) == if k == key then value else None
  {
    if value.Some? {
      assert Opt(k, value)[..0] == [];
    }
  }

  /** Which value the printed pairs hold for a key. */
  lemma LastAttrs<A(!new)>(lib: AddressLib<A>, r: IPRoute<A>, key: string)
    ensures Last(Attrs(lib, r), key) ==
      match key
      case "via" => Plain(lib, r.via)
      case "dev" => r.dev
      case "proto" => r.proto
      case "scope" => r.scope
      case "src" => Plain(lib, r.src)
      case "metric" => Number(r.metric)
      case _ => None
  {
    hide Last, Opt, Plain, Number;
    var v, d, p := Opt("via", Plain(lib, r.via)), Opt("dev", r.dev), Opt("proto", r.proto);
    var c, s, m := Opt("scope", r.scope), Opt("src", Plain(lib, r.src)), Opt("metric", Number(r.metric));
    LastConcat(v, d, key);
    LastConcat(v + d, p, key);
    LastConcat(v + d + p, c, key);
    LastConcat(v + d + p + c, s, key);
    LastConcat(v + d + p + c + s, m, key);
    LastOpt("via", Plain(lib, r.via), key);
    LastOpt("dev", r.dev, key);
    LastOpt("proto", r.proto, key);
    LastOpt("scope", r.scope, key);
    LastOpt("src", Plain(lib, r.src), key);
    LastOpt("metric", Number(r.metric), key);
  }

  /** The route with its gateway and source reduced to host addresses. */
  function AsHosts<A(!new)>(lib: AddressLib<A>, r: IPRoute<A>): IPRoute<A> {
    r.(via := AddressOf(lib, Plain(lib, r.via)), src := AddressOf(lib, Plain(lib, r.src)))
  }

  lemma OptCheck<A(!new)>(lib: AddressLib<A>, key: string, value: Option<string>)
    ensures CheckAll(lib, Opt(key, value)) == if value.Some? then Check(lib, (key, value.value)) else Ok(())
  {
    if value.Some? {
      assert Opt(key, value)[1..] == [];
    }
  }

  /** Of the printed pairs only an oversized metric fails to parse. */
  lemma AttrsCheck<A(!new)>(lib: AddressLib<A>, r: IPRoute<A>)
    requires lib.Laws()
    ensures CheckAll(lib, Attrs(lib, r)).Ok? <==> Measured(r)
  {
    var via, src, metric := Plain(lib, r.via), Plain(lib, r.src), Number(r.metric);
    if r.metric.Some? {
      StoiPrint(r.metric.value);
    }
    hide Stoi, Print, Opt, CheckAll;
    var v, d, p := Opt("via", via), Opt("dev", r.dev), Opt("proto", r.proto);
    var c, s, m := Opt("scope", r.scope), Opt("src", src), Opt("metric", metric);
    OptCheck(lib, "via", via);
    OptCheck(lib, "dev", r.dev);
    OptCheck(lib, "proto", r.proto);
    OptCheck(lib, "scope", r.scope);
    OptCheck(lib, "src", src);
    OptCheck(lib, "metric", metric);
    CheckAllConcat(lib, v, d);
    CheckAllConcat(lib, v + d, p);
    CheckAllConcat(lib, v + d + p, c);
    CheckAllConcat(lib, v + d + p + c, s);
    CheckAllConcat(lib, v + d + p + c + s, m);
  }

  /** Reading a printed route back: its via and src come back as hosts, and an oversized metric is an exception. */
  lemma ParsePrinted<A(!new)>(lib: AddressLib<A>, r: IPRoute<A>)
    requires lib.Laws() && Wordy(r)
    ensures Measured(r) ==> ParseTokens(lib, LineTokens(lib, r)) == Ok(AsHosts(lib, r))
    ensures !Measured(r) ==> !ParseTokens(lib, LineTokens(lib, r)).Ok?
  {
    var ps := Attrs(lib, r);
    hide Attrs, CheckAll, Last, Flat, Pairs;
    assert ParseDest(lib, Dest(lib, r.dest)) == Some(r.dest);
    PairsFlat(ps);
    assert LineTokens(lib, r)[1..] == Flat(ps);
    AttrsCheck(lib, r);
    LastAttrs(lib, r, "via");
    LastAttrs(lib, r, "dev");
    LastAttrs(lib, r, "proto");
    LastAttrs(lib, r, "scope");
    LastAttrs(lib, r, "src");
    LastAttrs(lib, r, "metric");
    if r.metric.Some? {
      StoiPrint(r.metric.value);
    }
  }

  ghost predicate AllWordy<A>(rs: seq<IPRoute<A>>) {
    forall n :: 0 <= n < |rs| ==> Wordy(rs[n])
  }

  function Lines<A(!new)>(lib: AddressLib<A>, rs: seq<IPRoute<A>>): seq<string> {
    seq(|rs|, n requires 0 <= n < |rs| => Serialize(lib, rs[n]))
  }

  lemma SerializeAllEnds<A(!new)>(lib: AddressLib<A>, rs: seq<IPRoute<A>>)
    ensures Seam(SerializeAll(lib, rs), "", EOL)
    ensures rs != [] ==> SerializeAll(lib, rs) != "" && SerializeAll(lib, rs)[|SerializeAll(lib, rs)| - 1] in EOL
  {
  }

  /** A line appended to a text that ends in a line end is one more line. */
  lemma LineAppended(text: string, line: string)
    requires Clean(line, EOL) && (text != "" ==> text[|text| - 1] in EOL)
    ensures Tokens(text + line + "\n", EOL) == Tokens(text, EOL) + [line]
  {
    hide Tokens;
    TokensOne(line, EOL);
    LineEnd();
    TokensConcat(line, "\n", EOL);
    assert text + line + "\n" == text + (line + "\n");
    TokensConcat(text, line + "\n", EOL);
  }

  /** A printed list falls apart into its lines again. */
  lemma {:induction false} PrintedLines<A(!new)>(lib: AddressLib<A>, rs: seq<IPRoute<A>>)
    requires lib.Laws() && AllWordy(rs)
    ensures Tokens(SerializeAll(lib, rs), EOL) == Lines(lib, rs)
  {
    hide Serialize, Wordy;
    if rs == [] {
      assert Lines(lib, rs) == [];
    } else {
      var init, last := rs[..|rs| - 1], rs[|rs| - 1];
      LinesSnoc(lib, rs);
      hide Tokens, Clean, SerializeAll, Lines;
      PrintedLines(lib, init);
      SerializedLine(lib, last);
      SerializeAllEnds(lib, init);
      LineAppended(SerializeAll(lib, init), Serialize(lib, last));
    }
  }

  lemma LinesSnoc<A(!new)>(lib: AddressLib<A>, rs: seq<IPRoute<A>>)
    requires rs != []
    ensures var init, last := rs[..|rs| - 1], rs[|rs| - 1];
      && SerializeAll(lib, rs) == SerializeAll(lib, init) + Serialize(lib, last) + "\n"
      && Lines(lib, rs) == Lines(lib, init) + [Serialize(lib, last)]
  {
  }

  lemma LineEnd()
    ensures Tokens("\n", EOL) == []
  {
    assert "\n"[1..] == "";
  }

  function AllAsHosts<A(!new)>(lib: AddressLib<A>, rs: seq<IPRoute<A>>): seq<IPRoute<A>> {
    seq(|rs|, n requires 0 <= n < |rs| => AsHosts(lib, rs[n]))
  }

  ghost predicate AllMeasured<A>(rs: seq<IPRoute<A>>) {
    forall n :: 0 <= n < |rs| ==> Measured(rs[n])
  }

  lemma {:induction false} ParsePrintedLines<A(!new)>(lib: AddressLib<A>, rs: seq<IPRoute<A>>)
    requires lib.Laws() && AllWordy(rs)
    ensures AllMeasured(rs) ==> ParseLines(lib, Lines(lib, rs)) == Ok(AllAsHosts(lib, rs))
    ensures !AllMeasured(rs) ==> !ParseLines(lib, Lines(lib, rs)).Ok?
  {
    hide Serialize, Wordy, Tokens, ParseTokens, LineTokens, AsHosts, Measured;
    if rs == [] {
      assert AllAsHosts(lib, rs) == [];
    } else {
      SerializedLine(lib, rs[0]);
      ParsePrinted(lib, rs[0]);
      ParsePrintedLines(lib, rs[1..]);
      assert Lines(lib, rs) == [Serialize(lib, rs[0])] + Lines(lib, rs[1..]);
      assert AllAsHosts(lib, rs) == [AsHosts(lib, rs[0])] + AllAsHosts(lib, rs[1..]);
      assert AllMeasured(rs) <==> Measured(rs[0]) && AllMeasured(rs[1..]) by {
        assert forall n :: 0 <= n < |rs| - 1 ==> rs[1..][n] == rs[n + 1];
        assert forall n :: 0 < n < |rs| ==> rs[n] == rs[1..][n - 1];
      }
    }
  }

  lemma AsHostsFixed<A(!new)>(lib: AddressLib<A>, r: IPRoute<A>)
    ensures AsHosts(lib, r) == r <==> Hosted(lib, r)
  {
  }

  /**
   The round trip and its exact condition: a printed list of routes is read back unchanged if and only
   if every name is one word, every metric fits an `int`, and every via and src is a host address.
   */
  lemma RoundTripExactly<A(!new)>(lib: AddressLib<A>, rs: seq<IPRoute<A>>)
    requires lib.Laws()
    ensures Parse(lib, SerializeAll(lib, rs)) == Ok(rs) <==>
      forall n :: 0 <= n < |rs| ==> Wordy(rs[n]) && Measured(rs[n]) && Hosted(lib, rs[n])
  {
    hide Tokens, ParseLines, SerializeAll, Wordy, Measured;
    if Parse(lib, SerializeAll(lib, rs)) == Ok(rs) {
      ParseIsWordy(lib, SerializeAll(lib, rs));
    }
    if AllWordy(rs) {
      PrintedLines(lib, rs);
      ParsePrintedLines(lib, rs);
      hide AsHosts, Hosted;
      forall n | 0 <= n < |rs|
        ensures AllAsHosts(lib, rs)[n] == rs[n] <==> Hosted(lib, rs[n])
      {
        AsHostsFixed(lib, rs[n]);
      }
      assert AllAsHosts(lib, rs) == rs <==> forall n :: 0 <= n < |rs| ==> AllAsHosts(lib, rs)[n] == rs[n];
    }
  }

  /**
   Whatever text the routes were read from: printing and reading them again gives the same routes if
   and only if every metric fits an `int` and every via and src is a host address.
   */
  lemma ReprintExactly<A(!new)>(lib: AddressLib<A>, text: string)
    requires lib.Laws() && Parse(lib, text).Ok?
    ensures var rs := Parse(lib, text).value;
      Parse(lib, SerializeAll(lib, rs)) == Ok(rs) <==>
        forall n :: 0 <= n < |rs| ==> Measured(rs[n]) && Hosted(lib, rs[n])
  {
    hide Parse, SerializeAll, Wordy, Measured, Hosted, AddressLib.Laws;
    ParseIsWordy(lib, text);
    RoundTripExactly(lib, Parse(lib, text).value);
  }

  /**
   Without the host condition the printed text is still a fixed point: it can be read back if and only
   if every metric fits an `int`, and printing what was read gives the same text.
   */
  lemma PrintedTextIsCanonical<A(!new)>(lib: AddressLib<A>, rs: seq<IPRoute<A>>)
    requires lib.Laws()
    requires forall n :: 0 <= n < |rs| ==> Wordy(rs[n])
    ensures var again := Parse(lib, SerializeAll(lib, rs));
      && (again.Ok? <==> forall n :: 0 <= n < |rs| ==> Measured(rs[n]))
      && (again.Ok? ==> again.value == AllAsHosts(lib, rs) && SerializeAll(lib, again.value) == SerializeAll(lib, rs))
  {
    hide Tokens, ParseLines, Measured;
    PrintedLines(lib, rs);
    ParsePrintedLines(lib, rs);
    SameText(lib, rs);
  }

  lemma {:induction false} SameText<A(!new)>(lib: AddressLib<A>, rs: seq<IPRoute<A>>)
    requires lib.Laws()
    ensures SerializeAll(lib, AllAsHosts(lib, rs)) == SerializeAll(lib, rs)
  {
    if rs != [] {
      var init, last := rs[..|rs| - 1], rs[|rs| - 1];
      SameText(lib, init);
      assert AllAsHosts(lib, rs)[..|rs| - 1] == AllAsHosts(lib, init);
      assert Serialize(lib, AsHosts(lib, last)) == Serialize(lib, last);
    }
  }
}
