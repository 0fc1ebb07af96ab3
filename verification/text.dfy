/** String helpers the application leans on: JavaScript's `String.prototype.trim`,
    decimal rendering of page numbers, `Array.prototype.join`, `split(',')` and
    `split(/\n+/)`. Strings are sequences of Unicode scalar values. */
module Text {

  /** The characters `String.prototype.trim` strips: the ECMAScript WhiteSpace
      set (tab, vertical tab, form feed, space, no-break space, byte order mark
      and the Unicode space separators) and the LineTerminator set. */
  predicate IsSpace(c: char) {
    || c == '\t' || c == '\n' || c == '\U{B}' || c == '\U{C}' || c == '\r' || c == ' '
    || c == '\U{A0}' || c == '\U{1680}' || ('\U{2000}' <= c <= '\U{200A}')
    || c == '\U{2028}' || c == '\U{2029}' || c == '\U{202F}' || c == '\U{205F}'
    || c == '\U{3000}' || c == '\U{FEFF}'
  }

  predicate AllSpace(s: string) {
    forall i :: 0 <= i < |s| ==> IsSpace(s[i])
  }

  /** `s.trim()`: `s` without the whitespace at either end. */
  function Trim(s: string): (r: string)
    ensures |r| <= |s|
    ensures |r| == 0 <==> AllSpace(s)
    ensures |r| == 0 || (!IsSpace(r[0]) && !IsSpace(r[|r| - 1]))
    decreases |s|
  {
    if |s| == 0 then []
    else if IsSpace(s[0]) then Trim(s[1..])
    else if IsSpace(s[|s| - 1]) then Trim(s[..|s| - 1])
    else s
  }

  /** Where `Trim(s)` starts inside `s`. */
  function TrimOffset(s: string): (a: nat)
    decreases |s|
  {
    if |s| == 0 then 0
    else if IsSpace(s[0]) then 1 + TrimOffset(s[1..])
    else if IsSpace(s[|s| - 1]) then TrimOffset(s[..|s| - 1])
    else 0
  }

  lemma AllSpaceConcat(x: string, y: string)
    requires AllSpace(x) && AllSpace(y)
    ensures AllSpace(x + y)
  {
  }

  /** `r` sits in `s` at offset `a`, with only whitespace around it. */
  predicate InfixAt(s: string, a: nat, r: string) {
    a + |r| <= |s| && r == s[a..a + |r|] && AllSpace(s[..a]) && AllSpace(s[a + |r|..])
  }

  lemma FirstThenRest(s: string)
    requires |s| > 0
    ensures [s[0]] + s[1..] == s
  {
  }

  lemma DropLastThenAppend(s: string)
    requires |s| > 0
    ensures s[..|s| - 1] + [s[|s| - 1]] == s
  {
  }

  lemma InfixAfterSpace(c: char, t: string, a: nat, r: string)
    requires IsSpace(c) && InfixAt(t, a, r)
    ensures InfixAt([c] + t, a + 1, r)
  {
    var s := [c] + t;
    assert s[a + 1..a + 1 + |r|] == t[a..a + |r|];
    assert s[..a + 1] == [c] + t[..a];
    AllSpaceConcat([c], t[..a]);
    assert s[a + 1 + |r|..] == t[a + |r|..];
  }

  lemma InfixBeforeSpace(t: string, c: char, a: nat, r: string)
    requires IsSpace(c) && InfixAt(t, a, r)
    ensures InfixAt(t + [c], a, r)
  {
    var s := t + [c];
    assert s[a..a + |r|] == t[a..a + |r|];
    assert s[..a] == t[..a];
    assert s[a + |r|..] == t[a + |r|..] + [c];
    AllSpaceConcat(t[a + |r|..], [c]);
  }

  lemma TrimInfixFront(s: string)
    requires |s| > 0 && IsSpace(s[0]) && InfixAt(s[1..], TrimOffset(s[1..]), Trim(s[1..]))
    ensures InfixAt(s, TrimOffset(s), Trim(s))
  {
    InfixAfterSpace(s[0], s[1..], TrimOffset(s[1..]), Trim(s[1..]));
    FirstThenRest(s);
  }

  lemma TrimInfixBack(s: string)
    requires |s| > 0 && !IsSpace(s[0]) && IsSpace(s[|s| - 1])
    requires InfixAt(s[..|s| - 1], TrimOffset(s[..|s| - 1]), Trim(s[..|s| - 1]))
    ensures InfixAt(s, TrimOffset(s), Trim(s))
  {
    var init := s[..|s| - 1];
    var c := s[|s| - 1];
    assert Trim(s) == Trim(init);
    assert TrimOffset(s) == TrimOffset(init);
    InfixBeforeSpace(init, c, TrimOffset(init), Trim(init));
    DropLastThenAppend(s);
  }

  /** The trimmed text is the infix of `s` between a whitespace prefix and a
      whitespace suffix. */
  lemma {:induction false} TrimIsInfix(s: string)
    ensures InfixAt(s, TrimOffset(s), Trim(s))
    decreases |s|
  {
    if |s| == 0 {
    } else if IsSpace(s[0]) {
      TrimIsInfix(s[1..]);
      TrimInfixFront(s);
    } else if IsSpace(s[|s| - 1]) {
      TrimIsInfix(s[..|s| - 1]);
      TrimInfixBack(s);
    } else {
      assert s[0..|s|] == s;
    }
  }

  /** Trimming twice is trimming once. */
  lemma TrimIdempotent(s: string)
    ensures Trim(Trim(s)) == Trim(s)
  {
  }

  // ---------------------------------------------------------------------------
  // Decimal rendering of natural numbers (template literals such as `Page ${i}`)

  predicate IsDigit(c: char) {
    '0' <= c <= '9'
  }

  function DigitChar(d: nat): (c: char)
    requires d < 10
    ensures IsDigit(c)
  {
    (48 + d) as char
  }

  function DigitValue(c: char): nat
    requires IsDigit(c)
  {
    (c as int) - 48
  }

  /** The shortest decimal numeral of `n`, as JavaScript renders an integer. */
  function NatToString(n: nat): (r: string)
    ensures |r| >= 1
    ensures forall i :: 0 <= i < |r| ==> IsDigit(r[i])
    ensures r[0] == '0' ==> r == "0"
    decreases n
  {
    if n < 10 then [DigitChar(n)] else NatToString(n / 10) + [DigitChar(n % 10)]
  }

  /** Reads a numeral back; the partner of `NatToString`. */
  function ParseNat(s: string): nat
    requires forall i :: 0 <= i < |s| ==> IsDigit(s[i])
  {
    if s == [] then 0 else 10 * ParseNat(s[..|s| - 1]) + DigitValue(s[|s| - 1])
  }

  lemma {:induction false} ParseNatToString(n: nat)
    ensures ParseNat(NatToString(n)) == n
    decreases n
  {
    var r := NatToString(n);
    if n >= 10 {
      ParseNatToString(n / 10);
      assert r[..|r| - 1] == NatToString(n / 10);
    }
  }

  /** Distinct numbers get distinct numerals, so page headings are distinct. */
  lemma NatToStringInjective(m: nat, n: nat)
    requires NatToString(m) == NatToString(n)
    ensures m == n
  {
    ParseNatToString(m);
    ParseNatToString(n);
  }

  // ---------------------------------------------------------------------------
  // Joining

  /** `xs.join(sep)`. */
  function Join(xs: seq<string>, sep: string): string {
    if |xs| == 0 then "" else if |xs| == 1 then xs[0] else xs[0] + sep + Join(xs[1..], sep)
  }

  /** Adding one more piece to a non-empty join adds one separator and the piece. */
  lemma {:induction false} JoinAppend(xs: seq<string>, y: string, sep: string)
    requires |xs| >= 1
    ensures Join(xs + [y], sep) == Join(xs, sep) + sep + y
    decreases |xs|
  {
    if |xs| == 1 {
      assert (xs + [y])[1..] == [y];
    } else {
      assert (xs + [y])[1..] == xs[1..] + [y];
      JoinAppend(xs[1..], y, sep);
    }
  }

  /** A prefix put in front of the first piece ends up in front of the join. */
  lemma JoinPrefixFirst(p: string, x: string, ys: seq<string>, sep: string)
    ensures Join([p + x] + ys, sep) == p + Join([x] + ys, sep)
  {
    if |ys| > 0 {
      assert ([p + x] + ys)[1..] == ys;
      assert ([x] + ys)[1..] == ys;
    }
  }

  // ---------------------------------------------------------------------------
  // Splitting

  /** `s.split(c)` for a one-character separator: the maximal runs between
      separators, always at least one piece. */
  function SplitOn(s: string, c: char): (r: seq<string>)
    ensures |r| >= 1
    ensures |r| == 1 <==> c !in s
    ensures forall i :: 0 <= i < |r| ==> c !in r[i]
  {
    if s == [] then [""]
    else if s[0] == c then [""] + SplitOn(s[1..], c)
    else
      var rest := SplitOn(s[1..], c);
      [[s[0]] + rest[0]] + rest[1..]
  }

  /** Splitting and joining back with the separator gives the original text. */
  lemma {:induction false} JoinSplitOn(s: string, c: char)
    ensures Join(SplitOn(s, c), [c]) == s
  {
    if s == [] {
    } else if s[0] == c {
      JoinSplitOn(s[1..], c);
      var rest := SplitOn(s[1..], c);
      assert ([""] + rest)[1..] == rest;
    } else {
      JoinSplitOn(s[1..], c);
      var rest := SplitOn(s[1..], c);
      JoinPrefixFirst([s[0]], rest[0], rest[1..], [c]);
      assert [rest[0]] + rest[1..] == rest;
    }
  }

  /** Text with no separator is one piece. */
  lemma {:induction false} SplitOnAbsent(s: string, c: char)
    requires c !in s
    ensures SplitOn(s, c) == [s]
  {
    if s != [] {
      SplitOnAbsent(s[1..], c);
      assert [s[0]] + s[1..] == s;
    }
  }

  /** The piece before the first separator comes first, the rest is split on. */
  lemma {:induction false} SplitOnFirst(a: string, c: char, b: string)
    requires c !in a
    ensures SplitOn(a + [c] + b, c) == [a] + SplitOn(b, c)
    decreases |a|
  {
    var s := a + [c] + b;
    if a == [] {
      assert s[1..] == b;
    } else {
      assert s[1..] == a[1..] + [c] + b;
      SplitOnFirst(a[1..], c, b);
      assert [a[0]] + a[1..] == a;
    }
  }

  /** Drops the newline characters at the start of `s`. */
  function DropNewlines(s: string): (r: string)
    ensures |r| <= |s|
    ensures r == [] || r[0] != '\n'
    ensures s != [] && s[0] == '\n' ==> |r| < |s|
  {
    if s != [] && s[0] == '\n' then DropNewlines(s[1..]) else s
  }

  /** `s.split(/\n+/)`: the pieces between maximal runs of newlines. A leading
      or trailing run yields an empty first or last piece. */
  function SplitNewlineRuns(s: string): (r: seq<string>)
    ensures |r| >= 1
    ensures forall i :: 0 <= i < |r| ==> '\n' !in r[i]
    ensures forall i :: 0 < i < |r| - 1 ==> r[i] != ""
    ensures s != [] && s[0] != '\n' ==> r[0] != ""
    decreases |s|
  {
    if s == [] then [""]
    else if s[0] == '\n' then [""] + SplitNewlineRuns(DropNewlines(s))
    else
      var rest := SplitNewlineRuns(s[1..]);
      [[s[0]] + rest[0]] + rest[1..]
  }

  /** Reference definition: every maximal run of newlines replaced by one newline. */
  function CollapseNewlines(s: string): string
    decreases |s|
  {
    if s == [] then ""
    else if s[0] == '\n' then "\n" + CollapseNewlines(DropNewlines(s))
    else [s[0]] + CollapseNewlines(s[1..])
  }

  /** The `/\n+/` pieces, joined by single newlines, are the text with its
      newline runs collapsed: splitting loses exactly the repeated newlines. */
  lemma {:induction false} JoinSplitNewlineRuns(s: string)
    ensures Join(SplitNewlineRuns(s), "\n") == CollapseNewlines(s)
    decreases |s|
  {
    if s == [] {
    } else if s[0] == '\n' {
      var rest := SplitNewlineRuns(DropNewlines(s));
      JoinSplitNewlineRuns(DropNewlines(s));
      assert ([""] + rest)[1..] == rest;
    } else {
      var rest := SplitNewlineRuns(s[1..]);
      JoinSplitNewlineRuns(s[1..]);
      JoinPrefixFirst([s[0]], rest[0], rest[1..], "\n");
      assert [rest[0]] + rest[1..] == rest;
    }
  }

  predicate StartsWith(s: string, prefix: string) {
    |prefix| <= |s| && s[..|prefix|] == prefix
  }
}
