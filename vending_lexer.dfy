/** The lexer of the vending machine: three exclusive states, each with its
    own rules tried in the order the handlers are defined, its own ignored
    characters, and the one error rule that applies in every state. */
module VendingLexer {
  import opened Common
  import Change

  /** INITIAL and the two exclusive states INSERTCOINS and PRODUCTSELECTION. */
  datatype LexState = Initial | InsertCoins | ProductSelection

  /** The alternatives of the coin pattern, in their order. */
  const CoinLiterals: seq<string> := ["2e", "1e", "50c", "20c", "10c", "5c", "2c", "1c"]

  predicate IsCoinLiteral(s: string) {
    |s| >= 2 && AllDigits(s[..|s| - 1]) && s[|s| - 1] in {'c', 'e'}
  }

  /** The value in cents of a coin literal: `nc` is n hundredths of a unit
      and `ne` is n whole units. */
  function CoinValue(literal: string): nat
    requires IsCoinLiteral(literal)
  {
    var n := DigitsValue(literal[..|literal| - 1]);
    if literal[|literal| - 1] == 'c' then n else 100 * n
  }

  /** The accepted literals are worth exactly the denominations the machine
      gives change in, in the same order. */
  lemma {:induction false} CoinLiteralsAreDenominations()
    ensures |CoinLiterals| == |Change.Coins|
    ensures forall i :: 0 <= i < |CoinLiterals| ==>
              IsCoinLiteral(CoinLiterals[i]) && CoinValue(CoinLiterals[i]) == Change.Coins[i]
  {
    forall i | 0 <= i < |CoinLiterals|
      ensures IsCoinLiteral(CoinLiterals[i]) && CoinValue(CoinLiterals[i]) == Change.Coins[i]
    {
      var lit := CoinLiterals[i];
      if |lit| == 2 {
        OneDigitValue(lit[..1]);
      } else {
        TwoDigitsValue(lit[..2]);
      }
    }
  }

  lemma {:induction false} CoinLiteralsWellFormed()
    ensures forall lit :: lit in CoinLiterals ==> IsCoinLiteral(lit)
  {
    CoinLiteralsAreDenominations();
  }

  lemma {:induction false} OneDigitValue(s: string)
    requires |s| == 1 && IsDigit(s[0])
    ensures AllDigits(s) && DigitsValue(s) == DigitValue(s[0])
  {
    assert s[..0] == [];
  }

  lemma {:induction false} TwoDigitsValue(s: string)
    requires |s| == 2 && IsDigit(s[0]) && IsDigit(s[1])
    ensures AllDigits(s) && DigitsValue(s) == 10 * DigitValue(s[0]) + DigitValue(s[1])
  {
    OneDigitValue(s[..1]);
  }

  /** What a matched rule stands for: one constructor per token handler. */
  datatype Rule =
    | BeginInsertCoins              // `COIN` in INITIAL
    | BeginProductSelection         // `PRODUCT` in INITIAL
    | ListProducts                  // `LIST` in INITIAL
    | ExitMachine                   // `EXIT` in INITIAL
    | InsertCoin(literal: string)   // a coin literal in INSERTCOINS
    | LeaveInsertCoins              // `EXIT` in INSERTCOINS
    | SelectProduct(code: string)   // two digits in PRODUCTSELECTION

  datatype Pattern = Keyword(word: string, rule: Rule) | CoinLiteral | ProductCode

  /** The rules of each state, in the order of their definitions. Rules
      without a state prefix belong to INITIAL only. */
  function Rules(state: LexState): (r: seq<Pattern>)
    ensures r != []
    ensures CoinLiteral in r <==> state == InsertCoins
    ensures ProductCode in r <==> state == ProductSelection
    ensures Keyword("EXIT", ExitMachine) in r <==> state == Initial
  {
    match state
    case Initial => [Keyword("COIN", BeginInsertCoins), Keyword("PRODUCT", BeginProductSelection),
                     Keyword("LIST", ListProducts), Keyword("EXIT", ExitMachine)]
    case InsertCoins => [CoinLiteral, Keyword("EXIT", LeaveInsertCoins)]
    case ProductSelection => [ProductCode]
  }

  /** The ignored characters: " \t\n" everywhere, ", \t\n" in INSERTCOINS. */
  predicate IsIgnored(state: LexState, c: char) {
    c == ' ' || c == '\t' || c == '\n' || (state == InsertCoins && c == ',')
  }

  predicate StartsWith(s: string, prefix: string) {
    |prefix| <= |s| && s[..|prefix|] == prefix
  }

  /** The length of the text `p` matches at the start of `rest`, 0 if none. */
  function MatchLength(p: Pattern, rest: string): (n: nat)
    ensures n <= |rest|
    ensures p.Keyword? ==> (n > 0 <==> StartsWith(rest, p.word) && p.word != [])
    ensures p.Keyword? && n > 0 ==> n == |p.word|
    ensures p.CoinLiteral? ==> (n > 0 <==> exists lit :: lit in CoinLiterals && StartsWith(rest, lit))
    ensures p.CoinLiteral? && n > 0 ==> rest[..n] in CoinLiterals
    ensures p.ProductCode? ==> (n > 0 <==> |rest| >= 2 && IsDigit(rest[0]) && IsDigit(rest[1]))
    ensures p.ProductCode? && n > 0 ==> n == 2
  {
    match p
    case Keyword(w, _) => if StartsWith(rest, w) then |w| else 0
    case CoinLiteral => (
      match FirstIndex(CoinLiterals, lit => StartsWith(rest, lit))
      case None => 0
      case Some(i) => |CoinLiterals[i]|)
    case ProductCode => if |rest| >= 2 && IsDigit(rest[0]) && IsDigit(rest[1]) then 2 else 0
  }

  predicate Matches(p: Pattern, rest: string) {
    MatchLength(p, rest) > 0
  }

  /** The rule a matching pattern fires, with the matched text as its value. */
  function RuleOf(p: Pattern, rest: string): Rule
    requires Matches(p, rest)
  {
    match p
    case Keyword(_, r) => r
    case CoinLiteral => InsertCoin(rest[..MatchLength(p, rest)])
    case ProductCode => SelectProduct(rest[..2])
  }

  /** The outcome of one scanning step at the cursor. */
  datatype Lexeme = Skip | Token(rule: Rule, length: nat) | Illegal(c: char)

  /** One step of the lexer at the start of `rest`: an ignored character is
      skipped; otherwise the first rule of the state that matches fires;
      otherwise the error rule reports the character. */
  function Scan(state: LexState, rest: string): (r: Lexeme)
    requires rest != []
    ensures r.Skip? <==> IsIgnored(state, rest[0])
    ensures r.Illegal? <==> !IsIgnored(state, rest[0]) && forall p :: p in Rules(state) ==> !Matches(p, rest)
    ensures r.Illegal? ==> r.c == rest[0]
    ensures r.Token? ==> 0 < r.length <= |rest|
    ensures r.Token? && r.rule.InsertCoin? ==>
              state == InsertCoins && r.rule.literal in CoinLiterals && r.rule.literal == rest[..r.length]
    ensures r.Token? && r.rule.SelectProduct? ==>
              state == ProductSelection && r.rule.code == rest[..2] && AllDigits(r.rule.code)
  {
    if IsIgnored(state, rest[0]) then Skip
    else
      var rules := Rules(state);
      match FirstIndex(rules, p => Matches(p, rest))
      case None =>
        assert forall p :: p in rules ==> !Matches(p, rest) by {
          forall p | p in rules
            ensures !Matches(p, rest)
          {
            var j :| 0 <= j < |rules| && rules[j] == p;
          }
        }
        Illegal(rest[0])
      case Some(i) => Token(RuleOf(rules[i], rest), MatchLength(rules[i], rest))
  }

  /** No two coin literals share their first two characters, so at most one
      of them matches and the order of the alternatives decides nothing. */
  lemma {:induction false} CoinLiteralsDistinctHeads()
    ensures forall i, j :: 0 <= i < j < |CoinLiterals| ==>
              |CoinLiterals[i]| >= 2 && |CoinLiterals[j]| >= 2 &&
              (CoinLiterals[i][0] != CoinLiterals[j][0] || CoinLiterals[i][1] != CoinLiterals[j][1])
  {
    assert CoinLiterals[0][0] == '2' && CoinLiterals[0][1] == 'e';
    assert CoinLiterals[1][0] == '1' && CoinLiterals[1][1] == 'e';
    assert CoinLiterals[2][0] == '5' && CoinLiterals[2][1] == '0';
    assert CoinLiterals[3][0] == '2' && CoinLiterals[3][1] == '0';
    assert CoinLiterals[4][0] == '1' && CoinLiterals[4][1] == '0';
    assert CoinLiterals[5][0] == '5' && CoinLiterals[5][1] == 'c';
    assert CoinLiterals[6][0] == '2' && CoinLiterals[6][1] == 'c';
    assert CoinLiterals[7][0] == '1' && CoinLiterals[7][1] == 'c';
  }

  /** The rule at index `i` of the state fires when it is the first to match. */
  lemma {:induction false} ScanFirstMatch(state: LexState, rest: string, i: nat)
    requires rest != [] && !IsIgnored(state, rest[0])
    requires i < |Rules(state)| && Matches(Rules(state)[i], rest)
    requires forall j :: 0 <= j < i ==> !Matches(Rules(state)[j], rest)
    ensures Scan(state, rest) == Token(RuleOf(Rules(state)[i], rest), MatchLength(Rules(state)[i], rest))
  {
    var rules := Rules(state);
    var k := FirstIndex(rules, p => Matches(p, rest));
    assert k == Some(i);
  }

  /** A coin literal at the cursor is matched in full, whatever follows it. */
  lemma {:induction false} CoinLiteralMatch(literal: string, s: string)
    requires literal in CoinLiterals && StartsWith(s, literal)
    ensures MatchLength(CoinLiteral, s) == |literal|
  {
    assert Matches(CoinLiteral, s);
    var n := MatchLength(CoinLiteral, s);
    var other := s[..n];
    assert other in CoinLiterals;
    CoinLiteralsDistinctHeads();
    var i :| 0 <= i < |CoinLiterals| && CoinLiterals[i] == literal;
    var j :| 0 <= j < |CoinLiterals| && CoinLiterals[j] == other;
    assert other[0] == literal[0] && other[1] == literal[1];
    assert i == j;
  }

  /** In INSERTCOINS each accepted literal is read as itself. */
  lemma {:induction false} ScanCoinLiteral(literal: string, rest: string)
    requires literal in CoinLiterals
    ensures Scan(InsertCoins, literal + rest) == Token(InsertCoin(literal), |literal|)
  {
    var s := literal + rest;
    assert s[..|literal|] == literal;
    CoinLiteralMatch(literal, s);
    assert RuleOf(CoinLiteral, s) == InsertCoin(literal);
    assert !IsIgnored(InsertCoins, s[0]) by {
      CoinLiteralsWellFormed();
      assert IsDigit(literal[0]) && s[0] == literal[0];
    }
    ScanFirstMatch(InsertCoins, s, 0);
  }

  /** The four keywords of INITIAL begin with four different letters. */
  lemma {:induction false} InitialKeywordsDistinctHeads()
    ensures forall i :: 0 <= i < |Rules(Initial)| ==>
              Rules(Initial)[i].Keyword? && |Rules(Initial)[i].word| > 0
    ensures forall i, j :: 0 <= i < j < |Rules(Initial)| ==>
              Rules(Initial)[i].word[0] != Rules(Initial)[j].word[0]
  {
  }

  /** A keyword of INITIAL at the cursor fires its own handler, whatever follows. */
  lemma {:induction false} ScanInitialKeyword(i: nat, rest: string)
    requires i < |Rules(Initial)|
    ensures Rules(Initial)[i].Keyword?
    ensures Scan(Initial, Rules(Initial)[i].word + rest) == Token(Rules(Initial)[i].rule, |Rules(Initial)[i].word|)
  {
    InitialKeywordsDistinctHeads();
    var k := Rules(Initial)[i];
    var s := k.word + rest;
    assert s[..|k.word|] == k.word;
    assert s[0] == k.word[0];
    forall j | 0 <= j < i
      ensures !Matches(Rules(Initial)[j], s)
    {
      assert Rules(Initial)[j].word[0] != s[0];
    }
    assert !IsIgnored(Initial, s[0]);
    ScanFirstMatch(Initial, s, i);
  }

  /** In INITIAL the four keywords switch on their own handler. */
  lemma {:induction false} ScanInitialKeywords(rest: string)
    ensures Scan(Initial, "COIN" + rest) == Token(BeginInsertCoins, 4)
    ensures Scan(Initial, "PRODUCT" + rest) == Token(BeginProductSelection, 7)
    ensures Scan(Initial, "LIST" + rest) == Token(ListProducts, 4)
    ensures Scan(Initial, "EXIT" + rest) == Token(ExitMachine, 4)
  {
    ScanInitialKeyword(0, rest);
    ScanInitialKeyword(1, rest);
    ScanInitialKeyword(2, rest);
    ScanInitialKeyword(3, rest);
  }

  /** In PRODUCTSELECTION any two digits are read as a product code. */
  lemma {:induction false} ScanProductCode(code: string, rest: string)
    requires |code| == 2 && AllDigits(code)
    ensures Scan(ProductSelection, code + rest) == Token(SelectProduct(code), 2)
  {
    assert (code + rest)[..2] == code;
  }
}
