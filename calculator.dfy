/** The on/off summing calculator: an ordered alternation of six token
    patterns scans the whole input, signed integers are added to a running
    total while the calculator is on, and `=` prints the total. */
module Calculator {
  import opened Common

  /** The named groups of the alternation, one per token kind. */
  datatype Kind = Int | On | Off | Eq | Skip | Unknown

  /** The alternatives in the order they are joined: the first that matches
      at the cursor wins. */
  const TokenSpecification: seq<Kind> := [Int, On, Off, Eq, Skip, Unknown]

  /** The text of an `INT` match: an optional sign, then at least one digit. */
  predicate IsIntText(s: string) {
    if s != [] && (s[0] == '+' || s[0] == '-') then |s| > 1 && AllDigits(s[1..])
    else s != [] && AllDigits(s)
  }

  /** Python's `int()` on the text of an `INT` match. Only `INT` texts are
      ever converted (`NextTokenIntText`); any other text reads as 0. */
  function IntValue(s: string): (r: int)
    ensures r < 0 ==> s != [] && s[0] == '-'
    ensures r != 0 ==> IsIntText(s)
  {
    if !IsIntText(s) then 0
    else if s[0] == '-' then -(DigitsValue(s[1..]) as int)
    else if s[0] == '+' then DigitsValue(s[1..])
    else DigitsValue(s)
  }

  /** The length `(\+|-)?\d+` matches at the start of `rest`, 0 for none. */
  function IntLength(rest: string): (n: nat)
    ensures n <= |rest|
  {
    var sign := if rest != [] && (rest[0] == '+' || rest[0] == '-') then 1 else 0;
    var digits := DigitsFrom(rest, sign);
    if digits > 0 then sign + digits else 0
  }

  /** The length `(?i:on)` matches at the start of `rest`, 0 for none. */
  function OnLength(rest: string): (n: nat)
    ensures n <= |rest|
  {
    if |rest| >= 2 && ToLower(rest[0]) == 'o' && ToLower(rest[1]) == 'n' then 2 else 0
  }

  /** The length `(?i:off)` matches at the start of `rest`, 0 for none. */
  function OffLength(rest: string): (n: nat)
    ensures n <= |rest|
  {
    if |rest| >= 3 && ToLower(rest[0]) == 'o' && ToLower(rest[1]) == 'f' && ToLower(rest[2]) == 'f' then 3 else 0
  }

  /** The length the pattern of `kind` matches at the start of `rest`, 0 if
      it does not match there (no pattern of the calculator matches the empty
      text). */
  function MatchLength(kind: Kind, rest: string): (n: nat)
    ensures n <= |rest|
  {
    match kind
    case Int => IntLength(rest)
    case On => OnLength(rest)
    case Off => OffLength(rest)
    case Eq => if rest != [] && rest[0] == '=' then 1 else 0
    case Skip => SpacesFrom(rest, 0)
    case Unknown => if rest != [] && rest[0] != '\n' then 1 else 0
  }

  /** What each alternative accepts at the start of `rest`: `INT` the longest
      signed run of digits, `ON` and `OFF` their words in any letter case, `=`
      itself, `SKIP` the longest run of whitespace and `UNKNOWN` any one
      character but a newline. */
  lemma {:induction false} MatchLengthMeaning(kind: Kind, rest: string)
    ensures var n := MatchLength(kind, rest);
      && (kind == Int && n > 0 ==> IsIntText(rest[..n]) && (n == |rest| || !IsDigit(rest[n])))
      && (kind == Int ==>
            (n > 0 <==> (rest != [] && IsDigit(rest[0]))
                        || (|rest| > 1 && (rest[0] == '+' || rest[0] == '-') && IsDigit(rest[1]))))
      && (kind == On ==> (n > 0 <==> |rest| >= 2 && ToLower(rest[0]) == 'o' && ToLower(rest[1]) == 'n'))
      && (kind == On && n > 0 ==> n == 2)
      && (kind == Off ==>
            (n > 0 <==> |rest| >= 3 && ToLower(rest[0]) == 'o' && ToLower(rest[1]) == 'f'
                        && ToLower(rest[2]) == 'f'))
      && (kind == Off && n > 0 ==> n == 3)
      && (kind == Eq ==> (n > 0 <==> rest != [] && rest[0] == '=') && n <= 1)
      && (kind == Skip ==> (n > 0 <==> rest != [] && IsSpace(rest[0])))
      && (kind == Skip ==> (forall i :: 0 <= i < n ==> IsSpace(rest[i])) && (n == |rest| || !IsSpace(rest[n])))
      && (kind == Unknown ==> (n > 0 <==> rest != [] && rest[0] != '\n') && n <= 1)
  {
    match kind
    case Int =>
      var sign := if rest != [] && (rest[0] == '+' || rest[0] == '-') then 1 else 0;
      DigitsFromMeaning(rest, sign);
      var n := MatchLength(kind, rest);
      if n > 0 {
        assert forall k :: 0 <= k < n - sign ==> rest[..n][sign..][k] == rest[sign + k];
      }
    case Skip => SpacesFromMeaning(rest, 0);
    case _ =>
  }

  datatype Token = Token(kind: Kind, text: string)

  /** `re.match` of the alternation at the start of `rest`: the first
      alternative that matches, and the text it matches. Some alternative
      always matches: `\s+` takes a newline and `.` any other character. */
  function NextToken(rest: string): (t: Token)
    requires rest != []
    ensures 0 < |t.text| <= |rest|
  {
    var number := IntLength(rest);
    if number > 0 then Token(Int, rest[..number]) else
    var on := OnLength(rest);
    if on > 0 then Token(On, rest[..on]) else
    var off := OffLength(rest);
    if off > 0 then Token(Off, rest[..off]) else
    if rest[0] == '=' then Token(Eq, rest[..1]) else
    var skip := SpacesFrom(rest, 0);
    if skip > 0 then Token(Skip, rest[..skip]) else
    Token(Unknown, rest[..1])
  }

  /** The alternative at index `k` matches something at the start of `rest`. */
  predicate Accepts(k: nat, rest: string)
    requires k < |TokenSpecification|
  {
    MatchLength(TokenSpecification[k], rest) > 0
  }

  /** The token is a prefix of the input, as long as what its own alternative
      accepts there, and no earlier alternative accepts anything there. */
  lemma {:induction false} NextTokenIsFirstMatch(rest: string)
    requires rest != []
    ensures var t := NextToken(rest);
      && t.text == rest[..|t.text|]
      && |t.text| == MatchLength(t.kind, rest)
      && forall k :: 0 <= k < |TokenSpecification| && TokenSpecification[k] == t.kind ==>
           forall j :: 0 <= j < k ==> !Accepts(j, rest)
  {
    MatchLengthMeaning(Skip, rest);
  }

  /** An `INT` token always carries a signed run of digits. */
  lemma {:induction false} NextTokenIntText(rest: string)
    requires rest != []
    ensures NextToken(rest).kind == Int ==> IsIntText(NextToken(rest).text)
  {
    MatchLengthMeaning(Int, rest);
  }

  /** The whole input cut into tokens, front to back. */
  function Tokenize(content: string): (ts: seq<Token>)
    ensures ts != [] <==> content != []
    ensures |ts| <= |content|
    ensures forall i :: 0 <= i < |ts| ==> ts[i].text != []
    decreases |content|
  {
    if content == [] then []
    else
      var t := NextToken(content);
      [t] + Tokenize(content[|t.text|..])
  }

  /** The texts of `ts`, one after the other. */
  function Texts(ts: seq<Token>): string {
    if ts == [] then [] else ts[0].text + Texts(ts[1..])
  }

  /** Scanning consumes the input exactly: no character is lost or repeated. */
  lemma {:induction false} TokenizeCoversInput(content: string)
    ensures Texts(Tokenize(content)) == content
    decreases |content|
  {
    if content != [] {
      var t := NextToken(content);
      NextTokenIsFirstMatch(content);
      TokenizeCoversInput(content[|t.text|..]);
      assert Tokenize(content)[1..] == Tokenize(content[|t.text|..]);
      assert content == content[..|t.text|] + content[|t.text|..];
    }
  }

  /** The calculator's variables and what it has written. */
  datatype Calc = Calc(total: int, on: bool, printed: seq<int>)

  /** `total` starts at 0 and the calculator starts on. */
  const Start: Calc := Calc(0, true, [])

  /** One token's effect on the calculator: the first branch of the `if`
      chain whose group is set. */
  function Exec(c: Calc, t: Token): (r: Calc)
    ensures r.total != c.total ==> t.kind == Int && c.on
    ensures r.on != c.on ==> t.kind == On || t.kind == Off
    ensures r.printed == (if t.kind == Eq then c.printed + [c.total] else c.printed)
  {
    match t.kind
    case Int => if c.on then c.(total := c.total + IntValue(t.text)) else c
    case On => c.(on := true)
    case Off => c.(on := false)
    case Eq => c.(printed := c.printed + [c.total])
    case Skip => c
    case Unknown => c
  }

  /** The calculator after the tokens `ts`, one at a time from `c`. */
  function Run(c: Calc, ts: seq<Token>): (r: Calc)
    ensures c.printed <= r.printed
    decreases |ts|
  {
    if ts == [] then c else Run(Exec(c, ts[0]), ts[1..])
  }

  /** The calculator after the cursor has moved from `ptr` to the end of
      `content`, one match at a time, from `c`. */
  function Evaluate(c: Calc, content: string, ptr: nat): (r: Calc)
    requires ptr <= |content|
    ensures c.printed <= r.printed
    decreases |content| - ptr
  {
    if ptr == |content| then c
    else
      var t := NextToken(content[ptr..]);
      Evaluate(Exec(c, t), content, ptr + |t.text|)
  }

  /** Moving the cursor over the input is running over its tokens. */
  lemma {:induction false} EvaluateIsRun(c: Calc, content: string, ptr: nat)
    requires ptr <= |content|
    ensures Evaluate(c, content, ptr) == Run(c, Tokenize(content[ptr..]))
    decreases |content| - ptr
  {
    if ptr < |content| {
      var t := NextToken(content[ptr..]);
      var next := ptr + |t.text|;
      assert content[ptr..][|t.text|..] == content[next..];
      var ts := Tokenize(content[ptr..]);
      assert ts[0] == t && ts[1..] == Tokenize(content[next..]);
      calc {
        Evaluate(c, content, ptr);
        Evaluate(Exec(c, t), content, next);
        { EvaluateIsRun(Exec(c, t), content, next); }
        Run(Exec(c, t), Tokenize(content[next..]));
        { RunFirstToken(c, ts); }
        Run(c, ts);
      }
    }
  }

  /** Running over tokens executes the first one, then runs over the rest. */
  lemma {:induction false} RunFirstToken(c: Calc, ts: seq<Token>)
    requires ts != []
    ensures Run(c, ts) == Run(Exec(c, ts[0]), ts[1..])
  {
  }

  /** `main`: scan the input with a cursor, one match per iteration, and
      update `total` and `on` as each token says. */
  method Calculate(content: string) returns (total: int, on: bool, printed: seq<int>)
    ensures Calc(total, on, printed) == Evaluate(Start, content, 0)
  {
    total, on, printed := 0, true, [];
    var ptr := 0;
    while ptr < |content|
      invariant ptr <= |content|
      invariant Evaluate(Calc(total, on, printed), content, ptr) == Evaluate(Start, content, 0)
      decreases |content| - ptr
    {
      var token := NextToken(content[ptr..]);
      ptr := ptr + |token.text|;
      total, on, printed := React(total, on, printed, token);
    }
  }

  /** The body of the scanning loop after a match: the first group that
      matched decides what happens to `total`, `on` and the output. */
  method React(total: int, on: bool, printed: seq<int>, token: Token)
    returns (total': int, on': bool, printed': seq<int>)
    ensures Calc(total', on', printed') == Exec(Calc(total, on, printed), token)
  {
    total', on', printed' := total, on, printed;
    if token.kind == Int && on {
      total' := total + IntValue(token.text);
    } else if token.kind == On {
      on' := true;
    } else if token.kind == Off {
      on' := false;
    } else if token.kind == Eq {
      printed' := printed + [total];
    }
  }

  /** Whitespace at the cursor is always skipped, as one maximal run. */
  lemma {:induction false} SpaceIsSkipped(rest: string)
    requires rest != [] && IsSpace(rest[0])
    ensures NextToken(rest).kind == Skip
    ensures var n := |NextToken(rest).text|;
      (forall i :: 0 <= i < n ==> IsSpace(rest[i])) && (n == |rest| || !IsSpace(rest[n]))
  {
    SpacesFromMeaning(rest, 0);
  }

  /** `on` is recognised in any mix of letter cases, whatever follows it. */
  lemma {:induction false} OnInAnyCase(a: char, b: char, rest: string)
    requires ToLower(a) == 'o' && ToLower(b) == 'n'
    ensures NextToken([a, b] + rest) == Token(On, [a, b])
  {
    var s := [a, b] + rest;
    assert s[..2] == [a, b];
  }

  /** `off` is recognised in any mix of letter cases, whatever follows it. */
  lemma {:induction false} OffInAnyCase(a: char, b: char, d: char, rest: string)
    requires ToLower(a) == 'o' && ToLower(b) == 'f' && ToLower(d) == 'f'
    ensures NextToken([a, b, d] + rest) == Token(Off, [a, b, d])
  {
    var s := [a, b, d] + rest;
    assert s[..3] == [a, b, d];
  }

  /** A number written in decimal, followed by anything but a digit, is read
      back as one `INT` token with that value. */
  lemma {:induction false} NumberIsReadBack(n: nat, rest: string)
    requires rest == [] || !IsDigit(rest[0])
    ensures NextToken(NatToString(n) + rest) == Token(Int, NatToString(n))
    ensures IntValue(NatToString(n)) == n
  {
    var digits := NatToString(n);
    var s := digits + rest;
    DigitsFromRun(s, 0, |digits|);
    assert s[..|digits|] == digits;
    NatToStringRoundTrip(n);
  }

  /** A minus sign before a number makes one `INT` token of negative value. */
  lemma {:induction false} NegativeNumberIsReadBack(n: nat, rest: string)
    requires rest == [] || !IsDigit(rest[0])
    ensures NextToken("-" + NatToString(n) + rest) == Token(Int, "-" + NatToString(n))
    ensures IntValue("-" + NatToString(n)) == -(n as int)
  {
    var digits := NatToString(n);
    var s := "-" + digits + rest;
    DigitsFromRun(s, 1, |digits| + 1);
    assert s[..|digits| + 1] == "-" + digits;
    assert ("-" + digits)[1..] == digits;
    NatToStringRoundTrip(n);
  }

  /** Running over `a` and then over `b` is running over `a + b`. */
  lemma {:induction false} RunAppend(c: Calc, a: seq<Token>, b: seq<Token>)
    ensures Run(c, a + b) == Run(Run(c, a), b)
    decreases |a|
  {
    if a == [] {
      assert a + b == b;
    } else {
      assert (a + b)[0] == a[0];
      assert (a + b)[1..] == a[1..] + b;
      RunAppend(Exec(c, a[0]), a[1..], b);
    }
  }

  /** `=` writes the current total as one more line and changes nothing else. */
  lemma {:induction false} EqPrintsTotal(c: Calc, ts: seq<Token>, eq: Token)
    requires eq.kind == Eq
    ensures var before := Run(c, ts);
      Run(c, ts + [eq]) == Calc(before.total, before.on, before.printed + [before.total])
  {
    RunAppend(c, ts, [eq]);
  }

  /** The number of tokens of `kind` in `ts`. */
  function CountKind(ts: seq<Token>, kind: Kind): (n: nat)
    ensures n <= |ts|
  {
    if ts == [] then 0 else (if ts[0].kind == kind then 1 else 0) + CountKind(ts[1..], kind)
  }

  /** What was printed stays printed, and each `=` adds exactly one line. */
  lemma {:induction false} PrintedGrows(c: Calc, ts: seq<Token>)
    ensures |Run(c, ts).printed| == |c.printed| + CountKind(ts, Eq)
    ensures Run(c, ts).printed[..|c.printed|] == c.printed
    decreases |ts|
  {
    if ts != [] {
      var next := Exec(c, ts[0]);
      PrintedGrows(next, ts[1..]);
      assert next.printed[..|c.printed|] == c.printed;
    }
  }

  /** The sum of the values of the `INT` tokens in `ts`. */
  function SumInts(ts: seq<Token>): int {
    if ts == [] then 0 else (if ts[0].kind == Int then IntValue(ts[0].text) else 0) + SumInts(ts[1..])
  }

  /** With the calculator on and no `off` to come, every number is added. */
  lemma {:induction false} AlwaysOnSumsAll(c: Calc, ts: seq<Token>)
    requires c.on && CountKind(ts, Off) == 0
    ensures Run(c, ts).on && Run(c, ts).total == c.total + SumInts(ts)
    decreases |ts|
  {
    if ts != [] {
      AlwaysOnSumsAll(Exec(c, ts[0]), ts[1..]);
    }
  }

  /** With the calculator off and no `on` to come, the total never moves. */
  lemma {:induction false} OffIgnoresNumbers(c: Calc, ts: seq<Token>)
    requires !c.on && CountKind(ts, On) == 0
    ensures !Run(c, ts).on && Run(c, ts).total == c.total
    decreases |ts|
  {
    if ts != [] {
      OffIgnoresNumbers(Exec(c, ts[0]), ts[1..]);
    }
  }

  /** Whether the calculator is on just before token `i`: the last `on` or
      `off` token before it decides, and `on` tells when there is none. */
  function OnBefore(on: bool, ts: seq<Token>, i: nat): bool
    requires i <= |ts|
  {
    if i == 0 then on
    else if ts[i - 1].kind == On then true
    else if ts[i - 1].kind == Off then false
    else OnBefore(on, ts, i - 1)
  }

  /** The sum of the values of the `INT` tokens among the first `n` that
      are read while the calculator is on. */
  function SumWhileOn(on: bool, ts: seq<Token>, n: nat): int
    requires n <= |ts|
  {
    if n == 0 then 0
    else
      var t := ts[n - 1];
      SumWhileOn(on, ts, n - 1) + (if t.kind == Int && OnBefore(on, ts, n - 1) then IntValue(t.text) else 0)
  }

  /** After the first `n` tokens the total has grown by exactly the numbers
      read while on, and the calculator is on exactly when the last switch
      before that point was `on`. */
  lemma {:induction false} RunSumsWhileOn(c: Calc, ts: seq<Token>, n: nat)
    requires n <= |ts|
    ensures Run(c, ts[..n]).total == c.total + SumWhileOn(c.on, ts, n)
    ensures Run(c, ts[..n]).on == OnBefore(c.on, ts, n)
    decreases n
  {
    if n > 0 {
      RunSumsWhileOn(c, ts, n - 1);
      RunAppend(c, ts[..n - 1], [ts[n - 1]]);
      assert ts[..n - 1] + [ts[n - 1]] == ts[..n];
    }
  }

  /** The final total is the starting total plus every number read while
      on. */
  lemma {:induction false} TotalIsSumWhileOn(c: Calc, ts: seq<Token>)
    ensures Run(c, ts).total == c.total + SumWhileOn(c.on, ts, |ts|)
  {
    RunSumsWhileOn(c, ts, |ts|);
    assert ts[..|ts|] == ts;
  }

  /** The `=` at index `j` prints, as the line after those of the earlier
      `=` tokens, the starting total plus the numbers read while on before
      it. */
  lemma {:induction false} EqPrintsSumWhileOn(c: Calc, ts: seq<Token>, j: nat)
    requires j < |ts| && ts[j].kind == Eq
    ensures var line := |c.printed| + CountKind(ts[..j], Eq);
      line < |Run(c, ts).printed| && Run(c, ts).printed[line] == c.total + SumWhileOn(c.on, ts, j)
  {
    var before := Run(c, ts[..j]);
    RunSumsWhileOn(c, ts, j);
    PrintedGrows(c, ts[..j]);
    RunThroughEq(c, ts, j);
    var after := Run(c, ts[..j + 1]);
    RunAppend(c, ts[..j + 1], ts[j + 1..]);
    assert ts[..j + 1] + ts[j + 1..] == ts;
    PrintedGrows(after, ts[j + 1..]);
    assert Run(c, ts).printed[..|after.printed|] == after.printed;
  }

  /** Running up to and including an `=` appends the total reached before it. */
  lemma {:induction false} RunThroughEq(c: Calc, ts: seq<Token>, j: nat)
    requires j < |ts| && ts[j].kind == Eq
    ensures Run(c, ts[..j + 1]).printed == Run(c, ts[..j]).printed + [Run(c, ts[..j]).total]
  {
    RunAppend(c, ts[..j], [ts[j]]);
    assert ts[..j] + [ts[j]] == ts[..j + 1];
  }

  /** What the program prints: the line written at each `=` of the input
      is the sum of the numbers read while on before it, counted from 0
      with the calculator on. */
  lemma {:induction false} ProgramPrintsSumsWhileOn(content: string, j: nat)
    requires j < |Tokenize(content)| && Tokenize(content)[j].kind == Eq
    ensures var ts, printed := Tokenize(content), Evaluate(Start, content, 0).printed;
      var line := CountKind(ts[..j], Eq);
      line < |printed| && printed[line] == SumWhileOn(true, ts, j)
  {
    EvaluateIsRun(Start, content, 0);
    assert content[0..] == content;
    EqPrintsSumWhileOn(Start, Tokenize(content), j);
  }

  /** `ts` without its whitespace and unrecognised characters. */
  function Significant(ts: seq<Token>): (r: seq<Token>)
    ensures |r| <= |ts|
  {
    if ts == [] then []
    else if ts[0].kind == Skip || ts[0].kind == Unknown then Significant(ts[1..])
    else [ts[0]] + Significant(ts[1..])
  }

  /** Whitespace and unrecognised characters have no effect at all. */
  lemma {:induction false} NoiseIsIgnored(c: Calc, ts: seq<Token>)
    ensures Run(c, ts) == Run(c, Significant(ts))
    decreases |ts|
  {
    if ts != [] {
      NoiseIsIgnored(Exec(c, ts[0]), ts[1..]);
      if !(ts[0].kind == Skip || ts[0].kind == Unknown) {
        var r := [ts[0]] + Significant(ts[1..]);
        assert r[0] == ts[0] && r[1..] == Significant(ts[1..]);
      }
    }
  }

  /** `2off3=`: a number, `off`, a number and `=` are each one token. */
  lemma {:induction false} TokensOfSwitchingOff()
    ensures Tokenize("2off3=") == [Token(Int, "2"), Token(Off, "off"), Token(Int, "3"), Token(Eq, "=")]
  {
    assert NatToString(2) == "2" && NatToString(3) == "3";
    assert Tokenize("=") == [Token(Eq, "=")] by {
      assert NextToken("=") == Token(Eq, "=");
      assert "="[1..] == [];
    }
    NumberIsReadBack(3, "=");
    assert NatToString(3) + "=" == "3=";
    assert Tokenize("3=") == [Token(Int, "3")] + Tokenize("=") by { assert "3="[1..] == "="; }
    OffInAnyCase('o', 'f', 'f', "3=");
    assert ['o', 'f', 'f'] + "3=" == "off3=";
    assert Tokenize("off3=") == [Token(Off, "off")] + Tokenize("3=") by { assert "off3="[3..] == "3="; }
    NumberIsReadBack(2, "off3=");
    assert NatToString(2) + "off3=" == "2off3=";
    assert Tokenize("2off3=") == [Token(Int, "2")] + Tokenize("off3=") by { assert "2off3="[1..] == "off3="; }
  }

  /** Over those tokens the 3 read while off is not added. */
  lemma {:induction false} RunOfSwitchingOff()
    ensures Run(Start, [Token(Int, "2"), Token(Off, "off"), Token(Int, "3"), Token(Eq, "=")]) == Calc(2, false, [2])
  {
    var ts := [Token(Int, "2"), Token(Off, "off"), Token(Int, "3"), Token(Eq, "=")];
    assert IntValue("2") == 2;
    assert Run(Calc(2, false, []), ts[3..]) == Calc(2, false, [2]);
    assert Run(Calc(2, false, []), ts[2..]) == Calc(2, false, [2]);
    assert Run(Calc(2, true, []), ts[1..]) == Calc(2, false, [2]);
  }

  /** `2off3=` prints 2 and leaves the calculator off. */
  lemma {:induction false} ScenarioSwitchingOff()
    ensures Run(Start, Tokenize("2off3=")) == Calc(2, false, [2])
  {
    TokensOfSwitchingOff();
    RunOfSwitchingOff();
  }
}
