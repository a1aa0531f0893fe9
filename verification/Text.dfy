/** Decimal numerals: printing, and the reading `std::stoi(t, 0, 10)` does. */
module Decimals {
  import opened Common

  predicate IsDigit(c: char) {
    '0' <= c <= '9'
  }

  predicate AllDigits(s: string) {
    forall i :: 0 <= i < |s| ==> IsDigit(s[i])
  }

  function Digit(n: nat): (c: char)
    requires n < 10
    ensures IsDigit(c)
  {
    '0' + n as char
  }

  function Print(n: nat): (s: string)
    ensures s != "" && AllDigits(s)
  {
    if n < 10 then [Digit(n)] else Print(n / 10) + [Digit(n % 10)]
  }

  function Value(s: string): nat
    requires AllDigits(s)
  {
    if s == "" then 0 else 10 * Value(s[..|s| - 1]) + (s[|s| - 1] - '0') as nat
  }

  lemma PrintSpells()
    ensures Print(0) == "0" && Print(9876) == "9876" && Print(1543210) == "1543210"
  {
  }

  /** Printing and reading back is the identity. */
  lemma {:induction false} ValuePrint(n: nat)
    ensures Value(Print(n)) == n
  {
    if n >= 10 {
      ValuePrint(n / 10);
      assert Print(n)[..|Print(n)| - 1] == Print(n / 10);
    }
  }

  /** How many digits `s` starts with. */
  function DigitRun(s: string): (n: nat)
    ensures n <= |s| && AllDigits(s[..n])
    ensures n < |s| ==> !IsDigit(s[n])
  {
    if s == "" || !IsDigit(s[0]) then 0
    else
      var n := DigitRun(s[1..]) + 1;
      assert forall i :: 0 < i < n ==> s[..n][i] == s[1..][..n - 1][i - 1];
      n
  }

  const INT_LIMIT: int := 0x8000_0000

  /** The characters `isspace` accepts in the C locale. */
  predicate IsSpace(c: char) {
    c == ' ' || c == '\t' || c == '\n' || c == '\U{0B}' || c == '\U{0C}' || c == '\r'
  }

  /**
   `std::stoi`: leading white space and one sign are skipped, digits are read as far as they go and the
   rest is ignored. None stands for the exceptions: no digit at all, or a value outside `int`.
   */
  function Stoi(t: string): (r: Option<int>)
    ensures r.Some? ==> -INT_LIMIT <= r.value < INT_LIMIT
  {
    if t == "" then None
    else if IsSpace(t[0]) then Stoi(t[1..])
    else if t[0] == '-' then Ranged(-1, t[1..])
    else if t[0] == '+' then Ranged(1, t[1..])
    else Ranged(1, t)
  }

  function Ranged(sign: int, t: string): (r: Option<int>)
    requires sign == 1 || sign == -1
    ensures r.Some? ==> -INT_LIMIT <= r.value < INT_LIMIT
  {
    var n := DigitRun(t);
    var v := sign * Value(t[..n]);
    if n == 0 || v < -INT_LIMIT || v >= INT_LIMIT then None else Some(v)
  }

  predicate AllSpace(s: string) {
    forall i :: 0 <= i < |s| ==> IsSpace(s[i])
  }

  /** Where a text stops being a number: at its end or at something that is no digit. */
  predicate Stops(rest: string) {
    rest == "" || !IsDigit(rest[0])
  }

  lemma {:induction false} DigitsRun(digits: string, rest: string)
    requires AllDigits(digits) && Stops(rest)
    ensures DigitRun(digits + rest) == |digits|
  {
    if digits == "" {
      assert digits + rest == rest;
    } else {
      assert (digits + rest)[1..] == digits[1..] + rest;
      DigitsRun(digits[1..], rest);
    }
  }

  lemma RangedReads(sign: int, digits: string, rest: string)
    requires (sign == 1 || sign == -1) && AllDigits(digits) && Stops(rest)
    ensures var v := sign * Value(digits);
      Ranged(sign, digits + rest) == if digits != "" && -2147483648 <= v <= 2147483647 then Some(v) else None
  {
    DigitsRun(digits, rest);
    assert (digits + rest)[..|digits|] == digits;
  }

  lemma {:induction false} StoiSkips(pre: string, t: string)
    requires AllSpace(pre)
    ensures Stoi(pre + t) == Stoi(t)
  {
    if pre == "" {
      assert pre + t == t;
    } else {
      assert (pre + t)[1..] == pre[1..] + t;
      StoiSkips(pre[1..], t);
    }
  }

  /**
   White space, a sign or none, digits, and anything that does not start with a digit: the number is read
   if there are digits and it fits 32 bits, and what follows is ignored.
   */
  lemma StoiReads(pre: string, sign: string, digits: string, rest: string)
    requires AllSpace(pre) && sign in {"", "+", "-"} && AllDigits(digits) && Stops(rest)
    requires digits == "" && sign == "" ==> rest == "" || (!IsSpace(rest[0]) && rest[0] != '+' && rest[0] != '-')
    ensures var v := (if sign == "-" then -1 else 1) * Value(digits);
      Stoi(pre + (sign + (digits + rest))) ==
      if digits != "" && -2147483648 <= v <= 2147483647 then Some(v) else None
  {
    StoiSkips(pre, sign + (digits + rest));
    RangedReads(1, digits, rest);
    RangedReads(-1, digits, rest);
    var body := digits + rest;
    hide Ranged, Value, AllSpace;
    if sign == "" {
      assert sign + body == body;
      assert body != "" ==> !IsSpace(body[0]) && body[0] != '+' && body[0] != '-';
      if body == "" {
        assert digits == "";
      }
    } else {
      assert (sign + body)[0] == sign[0] && (sign + body)[1..] == body;
    }
  }

  /** A printed number is read back if it fits an `int`, and is an exception if not. */
  lemma StoiPrint(n: nat)
    ensures Stoi(Print(n)) == if n <= 2147483647 then Some(n) else None
  {
    var s := Print(n);
    ValuePrint(n);
    assert IsDigit(s[0]);
    assert s[..DigitRun(s)] == s;
  }
}

/** `boost::tokenizer` with a `char_separator` of dropped delimiters: separators and empty tokens vanish. */
module Tokenizers {
  /** How many characters before the first separator. */
  function Run(s: string, seps: set<char>): (n: nat)
    ensures n <= |s| && forall i :: 0 <= i < n ==> s[i] !in seps
    ensures n < |s| ==> s[n] in seps
  {
    if s == "" || s[0] in seps then 0 else Run(s[1..], seps) + 1
  }

  function Tokens(s: string, seps: set<char>): seq<string> {
    if s == "" then []
    else if s[0] in seps then Tokens(s[1..], seps)
    else
      var n := Run(s, seps);
      [s[..n]] + Tokens(s[n..], seps)
  }

  predicate Clean(t: string, seps: set<char>) {
    t != "" && forall i :: 0 <= i < |t| ==> t[i] !in seps
  }

  /** Tokens are never empty and contain no separator. */
  lemma {:induction false} TokensAreClean(s: string, seps: set<char>)
    ensures forall k :: 0 <= k < |Tokens(s, seps)| ==> Clean(Tokens(s, seps)[k], seps)
    decreases |s|
  {
    if s != "" {
      if s[0] in seps {
        TokensAreClean(s[1..], seps);
      } else {
        TokensAreClean(s[Run(s, seps)..], seps);
      }
    }
  }

  /** And they contain nothing the text did not. */
  lemma {:induction false} TokensFrom(s: string, seps: set<char>, bad: set<char>)
    requires forall i :: 0 <= i < |s| ==> s[i] !in bad
    ensures forall k :: 0 <= k < |Tokens(s, seps)| ==>
      forall i :: 0 <= i < |Tokens(s, seps)[k]| ==> Tokens(s, seps)[k][i] !in bad
    decreases |s|
  {
    if s != "" {
      if s[0] in seps {
        TokensFrom(s[1..], seps, bad);
      } else {
        TokensFrom(s[Run(s, seps)..], seps, bad);
      }
    }
  }

  /** Between `a` and `b` no token is torn apart or glued together. */
  predicate Seam(a: string, b: string, seps: set<char>) {
    a == "" || b == "" || a[|a| - 1] in seps || b[0] in seps
  }

  /** At a seam, tokenizing distributes over concatenation. */
  lemma {:induction false} TokensConcat(a: string, b: string, seps: set<char>)
    requires Seam(a, b, seps)
    ensures Tokens(a + b, seps) == Tokens(a, seps) + Tokens(b, seps)
    decreases |a|
  {
    if a == "" {
      assert a + b == b;
    } else if b == "" {
      assert a + b == a;
    } else {
      var n := Run(a, seps);
      RunConcat(a, b, seps);
      hide Run;
      var step := if n == 0 then 1 else n;
      assert (a + b)[..n] == a[..n] && (a + b)[step..] == a[step..] + b;
      TokensConcat(a[step..], b, seps);
      if n > 0 {
        assert [a[..n]] + (Tokens(a[n..], seps) + Tokens(b, seps)) == [a[..n]] + Tokens(a[n..], seps) + Tokens(b, seps);
      }
    }
  }

  lemma {:induction false} RunConcat(a: string, b: string, seps: set<char>)
    requires Seam(a, b, seps) && b != ""
    ensures a != "" ==> Run(a + b, seps) == Run(a, seps)
  {
    if a != "" && a[0] !in seps {
      assert (a + b)[1..] == a[1..] + b;
      if |a| == 1 {
        assert a[1..] + b == b;
      } else {
        RunConcat(a[1..], b, seps);
      }
    }
  }

  lemma {:induction false} TokensOne(t: string, seps: set<char>)
    requires Clean(t, seps)
    ensures Tokens(t, seps) == [t]
  {
    assert Run(t, seps) == |t|;
    assert t[..|t|] == t && t[|t|..] == "";
  }

  /** Words joined by a separator character, each word followed by it but the last. */
  function Join(ts: seq<string>, c: char): string {
    if ts == [] then "" else if |ts| == 1 then ts[0] else Join(ts[..|ts| - 1], c) + [c] + ts[|ts| - 1]
  }

  /** Clean words joined by a separator are found again. */
  lemma {:induction false} TokensJoin(ts: seq<string>, c: char, seps: set<char>)
    requires c in seps && forall k :: 0 <= k < |ts| ==> Clean(ts[k], seps)
    ensures Tokens(Join(ts, c), seps) == ts
  {
    if |ts| == 1 {
      TokensOne(ts[0], seps);
    } else if |ts| > 1 {
      var init, last := ts[..|ts| - 1], ts[|ts| - 1];
      TokensJoin(init, c, seps);
      TokensOne(last, seps);
      var sep := [c];
      assert Tokens(sep, seps) == [] by {
        assert sep[1..] == "";
      }
      TokensConcat(sep, last, seps);
      assert Join(ts, c) == Join(init, c) + (sep + last);
      TokensConcat(Join(init, c), sep + last, seps);
      assert ts == init + [last];
    }
  }

  lemma JoinTwo(ts: seq<string>, k: string, v: string, c: char)
    requires ts != []
    ensures Join(ts + [k, v], c) == Join(ts, c) + [c] + k + [c] + v
  {
    var one := ts + [k];
    assert (ts + [k, v])[..|ts| + 1] == one;
    assert one[..|ts|] == ts;
  }
}
