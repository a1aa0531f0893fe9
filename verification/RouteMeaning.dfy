/**
 What the route text says, told by positions: which tokens a printed route has, and which token of a line
 ends up in which field or decides which failure.
 */
module RouteMeaning {
  import opened Common
  import opened Decimals
  import opened Tokenizers
  import opened Addresses
  import opened LinuxIpRoutes
  import opened RouteTheorems

  // ---------------------------------------------------------------- printing

  function Keyed(key: string, value: Option<string>): seq<string> {
    if value.Some? then [key, value.value] else []
  }

  /** The words of a printed route, in their order. */
  function PrintedWords<A(!new)>(lib: AddressLib<A>, r: IPRoute<A>): seq<string> {
    [if lib.toString(r.dest) == "0.0.0.0/0" then "default" else lib.toString(r.dest)]
    + Keyed("via", if r.via.Some? then Some(lib.toS(r.via.value)) else None)
    + Keyed("dev", r.dev)
    + Keyed("proto", r.proto)
    + Keyed("scope", r.scope)
    + Keyed("src", if r.src.Some? then Some(lib.toS(r.src.value)) else None)
    + Keyed("metric", if r.metric.Some? then Some(Print(r.metric.value)) else None)
  }

  lemma FlatOpt(key: string, value: Option<string>)
    ensures Flat(Opt(key, value)) == Keyed(key, value)
  {
    if value.Some? {
      assert Opt(key, value)[..0] == [];
    }
  }

  lemma WordsAreTokens<A(!new)>(lib: AddressLib<A>, r: IPRoute<A>)
    ensures PrintedWords(lib, r) == LineTokens(lib, r)
  {
    var v, d, p := Opt("via", Plain(lib, r.via)), Opt("dev", r.dev), Opt("proto", r.proto);
    var c, s, m := Opt("scope", r.scope), Opt("src", Plain(lib, r.src)), Opt("metric", Number(r.metric));
    FlatOpt("via", Plain(lib, r.via));
    FlatOpt("dev", r.dev);
    FlatOpt("proto", r.proto);
    FlatOpt("scope", r.scope);
    FlatOpt("src", Plain(lib, r.src));
    FlatOpt("metric", Number(r.metric));
    hide Flat, Opt, Keyed;
    FlatConcat(v, d);
    FlatConcat(v + d, p);
    FlatConcat(v + d + p, c);
    FlatConcat(v + d + p + c, s);
    FlatConcat(v + d + p + c + s, m);
  }

  /**
   A printed route is exactly these words with one blank between them; and if its names are words, they
   are what the tokenizer finds.
   */
  lemma PrintedRoute<A(!new)>(lib: AddressLib<A>, r: IPRoute<A>)
    ensures Serialize(lib, r) == Join(PrintedWords(lib, r), ' ')
    ensures lib.Laws() && Wordy(r) ==> Tokens(Serialize(lib, r), INLINE) == PrintedWords(lib, r)
  {
    hide Serialize, PrintedWords, LineTokens, Join, Tokens, Wordy, AddressLib.Laws;
    SerializeJoins(lib, r);
    WordsAreTokens(lib, r);
    if lib.Laws() && Wordy(r) {
      SerializedLine(lib, r);
    }
  }

  lemma PrintedLine<A(!new)>(lib: AddressLib<A>, r: IPRoute<A>)
    ensures SerializeAll(lib, [r]) == Serialize(lib, r) + "\n" && SerializeAll<A>(lib, []) == ""
  {
    hide Serialize;
    assert [r][..0] == [];
    LinesSnoc(lib, [r]);
    assert "" + Serialize(lib, r) == Serialize(lib, r);
  }

  /** A printed list is its routes' lines one after the other, each ended by one line feed. */
  lemma {:induction false} PrintedList<A(!new)>(lib: AddressLib<A>, a: seq<IPRoute<A>>, b: seq<IPRoute<A>>)
    ensures SerializeAll(lib, a + b) == SerializeAll(lib, a) + SerializeAll(lib, b)
    ensures |b| == 1 ==> SerializeAll(lib, b) == Serialize(lib, b[0]) + "\n"
    ensures b == [] ==> SerializeAll(lib, b) == ""
  {
    hide Serialize;
    if b == [] {
      assert a + b == a;
    } else {
      var init, last := b[..|b| - 1], b[|b| - 1];
      assert (a + b)[..|a + b| - 1] == a + init;
      LinesSnoc(lib, a + b);
      LinesSnoc(lib, b);
      PrintedLine(lib, last);
      assert |b| == 1 ==> b == [last];
      hide SerializeAll;
      PrintedList(lib, a, init);
      Reassociated(SerializeAll(lib, a), SerializeAll(lib, init), Serialize(lib, last));
    }
  }

  lemma Reassociated(a: string, b: string, line: string)
    ensures a + b + line + "\n" == a + (b + line + "\n")
  {
  }

  // ---------------------------------------------------------------- one line

  /** `ts[i]` stands where a key is expected, is this key, and has a value behind it. */
  predicate Given(ts: seq<string>, i: nat, key: string) {
    i % 2 == 1 && i + 1 < |ts| && ts[i] == key
  }

  ghost predicate LastGiven(ts: seq<string>, i: nat, key: string) {
    Given(ts, i, key) && forall j: nat :: i < j ==> !Given(ts, j, key)
  }

  /** The value behind this key is no address, or no number. */
  predicate BadAddress<A(!new)>(lib: AddressLib<A>, ts: seq<string>, i: nat) {
    (Given(ts, i, "via") || Given(ts, i, "src")) && lib.parse(ts[i + 1]).None?
  }

  predicate BadMetric(ts: seq<string>, i: nat) {
    Given(ts, i, "metric") && Stoi(ts[i + 1]).None?
  }

  predicate Bad<A(!new)>(lib: AddressLib<A>, ts: seq<string>, i: nat) {
    BadAddress(lib, ts, i) || BadMetric(ts, i)
  }

  lemma {:induction false} PairsAt(ts: seq<string>)
    ensures |Pairs(ts)| == |ts| / 2
    ensures forall n :: 0 <= n < |ts| / 2 ==> Pairs(ts)[n] == (ts[2 * n], ts[2 * n + 1])
  {
    if |ts| >= 2 {
      PairsAt(ts[2..]);
    }
  }

  predicate FailsFirst<A(!new)>(lib: AddressLib<A>, ps: seq<Pair>, n: nat)
    requires n < |ps|
  {
    !Check(lib, ps[n]).Ok? && forall m :: 0 <= m < n ==> Check(lib, ps[m]).Ok?
  }

  /** The verdict on a list of pairs is that of the first one that fails. */
  lemma {:induction false} FirstFailure<A(!new)>(lib: AddressLib<A>, ps: seq<Pair>)
    ensures CheckAll(lib, ps).Ok? <==> forall n :: 0 <= n < |ps| ==> Check(lib, ps[n]).Ok?
    ensures forall n :: 0 <= n < |ps| && FailsFirst(lib, ps, n) ==> CheckAll(lib, ps) == Check(lib, ps[n])
  {
    hide Check;
    if ps != [] {
      FirstFailure(lib, ps[1..]);
      assert forall n :: 1 <= n < |ps| ==> ps[n] == ps[1..][n - 1];
      assert forall n :: 0 <= n < |ps| - 1 ==> ps[1..][n] == ps[n + 1];
    }
  }

  predicate IsLast(ps: seq<Pair>, n: nat, key: string)
    requires n < |ps|
  {
    ps[n].0 == key && forall m :: n < m < |ps| ==> ps[m].0 != key
  }

  lemma {:induction false} LastAt(ps: seq<Pair>, key: string)
    ensures Last(ps, key).None? <==> forall n :: 0 <= n < |ps| ==> ps[n].0 != key
    ensures Last(ps, key).Some? ==> exists n :: 0 <= n < |ps| && IsLast(ps, n, key) && ps[n].1 == Last(ps, key).value
  {
    if ps != [] {
      if ps[|ps| - 1].0 == key {
        assert IsLast(ps, |ps| - 1, key);
      } else {
        var init := ps[..|ps| - 1];
        LastAt(init, key);
        if n :| 0 <= n < |init| && IsLast(init, n, key) && Last(ps, key) == Some(init[n].1) {
          assert IsLast(ps, n, key);
        }
      }
    }
  }

  /** The pairs of a line, by the positions of its tokens. */
  lemma LinePairs(ts: seq<string>)
    requires ts != []
    ensures var ps := Pairs(ts[1..]);
      && |ps| == (|ts| - 1) / 2
      && forall n :: 0 <= n < |ps| ==> ps[n] == (ts[2 * n + 1], ts[2 * n + 2])
  {
    PairsAt(ts[1..]);
  }

  /** A pair fails just if its key's position is bad. */
  lemma PairVerdict<A(!new)>(lib: AddressLib<A>, ts: seq<string>, n: nat)
    requires ts != [] && n < |Pairs(ts[1..])|
    ensures var check := Check(lib, Pairs(ts[1..])[n]);
      && (check.Err? <==> BadAddress(lib, ts, 2 * n + 1)) && (check.Throws? <==> BadMetric(ts, 2 * n + 1))
  {
    LinePairs(ts);
    hide Stoi, Pairs;
  }

  lemma BadIsOdd<A(!new)>(lib: AddressLib<A>, ts: seq<string>, i: nat)
    requires Bad(lib, ts, i)
    ensures ts != [] && i % 2 == 1 && i / 2 < |Pairs(ts[1..])| && 2 * (i / 2) + 1 == i
  {
    LinePairs(ts);
    hide Pairs, Stoi;
  }

  /** What the first token says the destination is. */
  function Destination<A(!new)>(lib: AddressLib<A>, t: string): Option<A> {
    lib.parse(if t == "default" then "0.0.0.0/0" else t)
  }

  /** No value before position `i` fails. */
  ghost predicate FineUpTo<A(!new)>(lib: AddressLib<A>, ts: seq<string>, i: nat) {
    forall j: nat :: j < i ==> !Bad(lib, ts, j)
  }

  /**
   When a line parses, and what it fails with if not: an empty line is fine; a destination that is no
   address is an error; otherwise the first value that is no address where one is asked for is an error,
   and the first that is no number where one is asked for is an exception, whichever comes first.
   */
  lemma LineVerdict<A(!new)>(lib: AddressLib<A>, ts: seq<string>)
    ensures ts == [] ==> ParseTokens(lib, ts) == Ok(IPRoute(lib.blank, None, None, None, None, None, None))
    ensures ts != [] && Destination(lib, ts[0]).None? ==> ParseTokens(lib, ts) == Err
    ensures ts != [] && Destination(lib, ts[0]).Some? ==>
      && (ParseTokens(lib, ts).Ok? <==> forall i: nat :: !Bad(lib, ts, i))
      && (forall i: nat :: BadAddress(lib, ts, i) && FineUpTo(lib, ts, i) ==> ParseTokens(lib, ts) == Err)
      && (forall i: nat :: BadMetric(ts, i) && FineUpTo(lib, ts, i) ==> ParseTokens(lib, ts) == Throws)
  {
    if ts == [] {
      BlankRoute(lib, lib.blank);
    } else if Destination(lib, ts[0]).Some? {
      var ps := Pairs(ts[1..]);
      FirstFailure(lib, ps);
      PairsVerdicts(lib, ts);
      hide Check, CheckAll, RouteOf, Pairs, BadAddress, BadMetric;
    }
  }

  lemma PairsVerdicts<A(!new)>(lib: AddressLib<A>, ts: seq<string>)
    requires ts != []
    ensures var ps := Pairs(ts[1..]);
      && ((forall i: nat :: !Bad(lib, ts, i)) <==> forall n :: 0 <= n < |ps| ==> Check(lib, ps[n]).Ok?)
      && (forall i: nat :: Bad(lib, ts, i) && FineUpTo(lib, ts, i) ==>
            && 0 <= i / 2 < |ps|
            && (forall m :: 0 <= m < i / 2 ==> Check(lib, ps[m]).Ok?)
            && (BadAddress(lib, ts, i) <==> Check(lib, ps[i / 2]).Err?)
            && (BadMetric(ts, i) <==> Check(lib, ps[i / 2]).Throws?))
  {
    var ps := Pairs(ts[1..]);
    forall n: nat | n < |ps|
      ensures Check(lib, ps[n]).Ok? <==> !Bad(lib, ts, 2 * n + 1)
      ensures Check(lib, ps[n]).Err? <==> BadAddress(lib, ts, 2 * n + 1)
      ensures Check(lib, ps[n]).Throws? <==> BadMetric(ts, 2 * n + 1)
    {
      PairVerdict(lib, ts, n);
    }
    forall i: nat | Bad(lib, ts, i)
      ensures i / 2 < |ps| && 2 * (i / 2) + 1 == i
    {
      BadIsOdd(lib, ts, i);
    }
    hide Check, Pairs, BadAddress, BadMetric, Bad;
    forall i: nat | Bad(lib, ts, i) && FineUpTo(lib, ts, i)
      ensures forall m :: 0 <= m < i / 2 ==> Check(lib, ps[m]).Ok?
      ensures BadAddress(lib, ts, i) <==> Check(lib, ps[i / 2]).Err?
      ensures BadMetric(ts, i) <==> Check(lib, ps[i / 2]).Throws?
    {
      assert i == 2 * (i / 2) + 1;
      forall m | 0 <= m < i / 2
        ensures Check(lib, ps[m]).Ok?
      {
        assert !Bad(lib, ts, 2 * m + 1);
      }
    }
    if forall i: nat :: !Bad(lib, ts, i) {
      forall n | 0 <= n < |ps|
        ensures Check(lib, ps[n]).Ok?
      {
        assert !Bad(lib, ts, 2 * n + 1);
      }
    }
  }

  /** A field's text is the value behind the last place where its key is given, if it is given at all. */
  ghost predicate FieldText(ts: seq<string>, key: string, value: Option<string>) {
    && (value.None? <==> forall i: nat :: !Given(ts, i, key))
    && (value.Some? ==> exists i: nat :: LastGiven(ts, i, key) && ts[i + 1] == value.value)
  }

  /** Positions of a key in the line are places of it among the pairs. */
  lemma GivenIsPair(ts: seq<string>, key: string)
    requires ts != []
    ensures var ps := Pairs(ts[1..]);
      && (forall n: nat :: n < |ps| ==> (ps[n].0 == key <==> Given(ts, 2 * n + 1, key)) && 2 * n + 2 < |ts|)
      && (forall n: nat :: n < |ps| ==> ps[n].1 == ts[2 * n + 2])
      && (forall i: nat :: Given(ts, i, key) ==> i / 2 < |ps| && 2 * (i / 2) + 1 == i && ps[i / 2].0 == key)
  {
    LinePairs(ts);
    hide Pairs;
  }

  lemma LastIsField(ts: seq<string>, key: string)
    requires ts != []
    ensures FieldText(ts, key, Last(Pairs(ts[1..]), key))
  {
    var ps := Pairs(ts[1..]);
    LastAt(ps, key);
    hide Last, Pairs, Given;
    var value := Last(ps, key);
    if value.Some? {
      var n :| 0 <= n < |ps| && IsLast(ps, n, key) && ps[n].1 == value.value;
      LastIsLast(ts, n, key);
    } else {
      NeverGiven(ts, key);
    }
  }

  lemma NeverGiven(ts: seq<string>, key: string)
    requires ts != [] && forall n :: 0 <= n < |Pairs(ts[1..])| ==> Pairs(ts[1..])[n].0 != key
    ensures forall i: nat :: !Given(ts, i, key)
  {
    GivenIsPair(ts, key);
    hide Pairs, Given;
  }

  lemma LastIsLast(ts: seq<string>, n: nat, key: string)
    requires ts != [] && n < |Pairs(ts[1..])| && IsLast(Pairs(ts[1..]), n, key)
    ensures LastGiven(ts, 2 * n + 1, key) && ts[2 * n + 2] == Pairs(ts[1..])[n].1
  {
    var ps := Pairs(ts[1..]);
    GivenIsPair(ts, key);
    hide Pairs, Given;
    assert forall j: nat :: 2 * n + 1 < j && 2 * (j / 2) + 1 == j ==> n < j / 2;
  }

  /** What each field of a line that parses is, in terms of the line's tokens. */
  lemma LineFields<A(!new)>(lib: AddressLib<A>, ts: seq<string>)
    returns (via: Option<string>, src: Option<string>, metric: Option<string>)
    requires ts != [] && ParseTokens(lib, ts).Ok?
    ensures var r := ParseTokens(lib, ts).value;
      && Destination(lib, ts[0]) == Some(r.dest)
      && FieldText(ts, "dev", r.dev) && FieldText(ts, "proto", r.proto) && FieldText(ts, "scope", r.scope)
      && FieldText(ts, "via", via) && (if via.Some? then r.via.Some? && lib.parse(via.value) == r.via else r.via.None?)
      && FieldText(ts, "src", src) && (if src.Some? then r.src.Some? && lib.parse(src.value) == r.src else r.src.None?)
      && FieldText(ts, "metric", metric)
      && (if metric.None? then r.metric.None?
          else Stoi(metric.value).Some? &&
               var n := Stoi(metric.value).value;
               r.metric == Some(if n >= 0 then n else n + 18446744073709551616))
  {
    var ps := Pairs(ts[1..]);
    via, src, metric := Last(ps, "via"), Last(ps, "src"), Last(ps, "metric");
    LastIsField(ts, "dev");
    LastIsField(ts, "proto");
    LastIsField(ts, "scope");
    LastIsField(ts, "via");
    LastIsField(ts, "src");
    LastIsField(ts, "metric");
    LastParses(lib, ps, "via");
    LastParses(lib, ps, "src");
    LastParses(lib, ps, "metric");
    hide Last, CheckAll, Pairs, FieldText, Stoi;
  }

  /** In a list of pairs that parses, so does the last value of each key. */
  lemma LastParses<A(!new)>(lib: AddressLib<A>, ps: seq<Pair>, key: string)
    requires CheckAll(lib, ps).Ok?
    ensures Last(ps, key).Some? ==> Check(lib, (key, Last(ps, key).value)).Ok?
  {
    FirstFailure(lib, ps);
    LastAt(ps, key);
    hide Last, CheckAll, Check;
  }

  // ---------------------------------------------------------------- the whole text

  predicate LineFailsFirst<A(!new)>(lib: AddressLib<A>, lines: seq<string>, n: nat)
    requires n < |lines|
  {
    && !ParseTokens(lib, Tokens(lines[n], INLINE)).Ok?
    && forall m :: 0 <= m < n ==> ParseTokens(lib, Tokens(lines[m], INLINE)).Ok?
  }

  /**
   A text parses just if all its lines do, to one route a line, in order; otherwise the first line that
   fails decides.
   */
  lemma {:induction false} LinesVerdict<A(!new)>(lib: AddressLib<A>, lines: seq<string>)
    ensures ParseLines(lib, lines).Ok? <==>
      forall n :: 0 <= n < |lines| ==> ParseTokens(lib, Tokens(lines[n], INLINE)).Ok?
    ensures ParseLines(lib, lines).Ok? ==>
      && |ParseLines(lib, lines).value| == |lines|
      && forall n :: 0 <= n < |lines| ==>
           ParseTokens(lib, Tokens(lines[n], INLINE)) == Ok(ParseLines(lib, lines).value[n])
    ensures forall n :: 0 <= n < |lines| && LineFailsFirst(lib, lines, n) ==>
      && (ParseLines(lib, lines).Err? <==> ParseTokens(lib, Tokens(lines[n], INLINE)).Err?)
      && (ParseLines(lib, lines).Throws? <==> ParseTokens(lib, Tokens(lines[n], INLINE)).Throws?)
  {
    hide ParseTokens, Tokens;
    if lines != [] {
      var rest := lines[1..];
      LinesVerdict(lib, rest);
      assert forall n :: 1 <= n < |lines| ==> lines[n] == rest[n - 1];
      assert forall n :: 0 <= n < |rest| ==> rest[n] == lines[n + 1];
    }
  }
}
