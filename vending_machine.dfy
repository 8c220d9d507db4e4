/** The vending machine: the token handlers that drive the balance and the
    product catalogue, the per-line token loop, and the session loop.

    The pure part (Snapshot, Apply, StepModel, RunFrom) states what one
    token, one scanning step and one line do to the machine; the class
    `Machine` holds the same state in fields that its handler methods update
    in place, and each of its methods is proved against the pure part. */
module VendingMachine {
  import opened Common
  import opened VendingLexer
  import Change

  /** A catalogue entry (`Produto`); the price is in cents. */
  datatype Product = Product(code: string, name: string, quantity: int, price: int)

  /** What the machine prints, one constructor per kind of message. */
  datatype Message =
    | Catalogue(products: seq<Product>)   // LIST: one line per product
    | CurrentAmount(cents: int)
    | OutOfStock
    | InsufficientFunds
    | Acquired(name: string)
    | NotFound
    | IllegalCharacter(c: char)
    | ChangeGiven(counts: seq<nat>)       // the denominations with a non-zero count are printed
    | ThankYou

  /** The tokens the handlers that return one hand back to the caller. */
  datatype Token = ListToken | CoinToken(cents: nat) | ProductToken(code: string)

  /** The index of the first product whose code is `code`. */
  function FindProduct(products: seq<Product>, code: string): (r: Option<nat>)
    ensures r.Some? ==> r.value < |products| && products[r.value].code == code
    ensures r.Some? ==> forall j :: 0 <= j < r.value ==> products[j].code != code
    ensures r.None? <==> forall j :: 0 <= j < |products| ==> products[j].code != code
  {
    FirstIndex(products, (p: Product) => p.code == code)
  }

  /** Which branch a purchase attempt takes. */
  datatype Outcome = NoSuchProduct | SoldOut(index: nat) | TooExpensive(index: nat) | Sold(index: nat)

  datatype Sale = Sale(outcome: Outcome, amount: int, products: seq<Product>)

  /** The worth of the stock at the catalogue prices. A sale lowers it and
      the balance by the same price. */
  function StockValue(products: seq<Product>): int {
    if products == [] then 0 else products[0].quantity * products[0].price + StockValue(products[1..])
  }

  /** Selling one unit of product `i` lowers the stock value by its price. */
  lemma {:induction false} StockValueDecrement(products: seq<Product>, i: nat)
    requires i < |products|
    ensures StockValue(products[i := products[i].(quantity := products[i].quantity - 1)])
            == StockValue(products) - products[i].price
  {
    var p := products[i];
    var after := products[i := p.(quantity := p.quantity - 1)];
    assert (p.quantity - 1) * p.price == p.quantity * p.price - p.price;
    if i == 0 {
      assert after[1..] == products[1..];
    } else {
      StockValueDecrement(products[1..], i - 1);
      assert after[1..] == products[1..][i - 1 := p.(quantity := p.quantity - 1)];
    }
  }

  /** A purchase attempt with balance `amount`: the first product with the
      code is taken; out of stock, then too expensive, are checked before
      anything changes. */
  function Purchase(amount: int, products: seq<Product>, code: string): (s: Sale)
    ensures s.outcome.NoSuchProduct? <==> FindProduct(products, code).None?
    ensures !s.outcome.NoSuchProduct? ==> Some(s.outcome.index) == FindProduct(products, code)
    ensures s.outcome.SoldOut? ==> products[s.outcome.index].quantity <= 0
    ensures s.outcome.TooExpensive? ==>
              products[s.outcome.index].quantity > 0 && amount < products[s.outcome.index].price
    ensures s.outcome.Sold? ==>
              var i := s.outcome.index;
              && products[i].quantity > 0 && amount >= products[i].price
              && s.amount == amount - products[i].price
              && s.products == products[i := products[i].(quantity := products[i].quantity - 1)]
    ensures !s.outcome.Sold? ==> s.amount == amount && s.products == products
    ensures amount >= 0 ==> s.amount >= 0
    ensures s.amount - StockValue(s.products) == amount - StockValue(products)
  {
    match FindProduct(products, code)
    case None => Sale(NoSuchProduct, amount, products)
    case Some(i) =>
      var p := products[i];
      if p.quantity <= 0 then Sale(SoldOut(i), amount, products)
      else if amount < p.price then Sale(TooExpensive(i), amount, products)
      else
        StockValueDecrement(products, i);
        Sale(Sold(i), amount - p.price, products[i := p.(quantity := p.quantity - 1)])
  }

  /** The messages a purchase attempt prints. */
  function SaleMessages(s: Sale, products: seq<Product>): seq<Message>
    requires s.outcome.Sold? ==> s.outcome.index < |products|
  {
    match s.outcome
    case NoSuchProduct => [NotFound]
    case SoldOut(_) => [OutOfStock]
    case TooExpensive(_) => [InsufficientFunds]
    case Sold(i) => [Acquired(products[i].name), CurrentAmount(s.amount)]
  }

  /** The machine's state as a value: the fields of `VendingMachine` and
      the active lexer state, plus everything printed so far. */
  datatype Snapshot = Snapshot(amount: int, exit: bool, state: LexState,
                               products: seq<Product>, output: seq<Message>)

  /** The balance less the stock value: only an inserted coin changes it,
      so the balance is always what was inserted less what was sold. */
  function Worth(m: Snapshot): int {
    m.amount - StockValue(m.products)
  }

  /** The money a token brings in: the value of an inserted coin. */
  function Deposit(t: Option<Token>): nat {
    if t.Some? && t.value.CoinToken? then t.value.cents else 0
  }

  function Deposits(ts: seq<Token>): nat {
    if ts == [] then 0 else Deposit(Some(ts[0])) + Deposits(ts[1..])
  }

  /** The catalogue keeps its products, in their order, with their codes,
      names and prices; stock can only go down. */
  predicate SameCatalogue(before: seq<Product>, after: seq<Product>) {
    && |after| == |before|
    && forall i :: 0 <= i < |before| ==>
         && after[i].code == before[i].code && after[i].name == before[i].name
         && after[i].price == before[i].price && after[i].quantity <= before[i].quantity
  }

  /** What no handler undoes: printed output is only appended to, the exit
      flag once set stays set, and the catalogue only loses stock. */
  predicate Extends(before: Snapshot, after: Snapshot) {
    && before.output <= after.output
    && (before.exit ==> after.exit)
    && SameCatalogue(before.products, after.products)
  }

  /** A handler's effect: the new state and the token it returns, if any. */
  datatype Fired = Fired(after: Snapshot, token: Option<Token>)

  /** What the handler of `rule` does. */
  function Apply(m: Snapshot, rule: Rule): (r: Fired)
    requires m.amount >= 0
    requires rule.InsertCoin? ==> IsCoinLiteral(rule.literal)
    ensures r.after.amount >= 0
  {
    match rule
    case BeginInsertCoins => Fired(m.(state := InsertCoins), None)
    case BeginProductSelection => Fired(m.(state := ProductSelection), None)
    case ListProducts => Fired(m.(output := m.output + [Catalogue(m.products)]), Some(ListToken))
    case ExitMachine =>
      Fired(m.(exit := true, output := m.output + [ChangeGiven(Change.ChangeFor(m.amount)), ThankYou]), None)
    case InsertCoin(literal) =>
      Fired(m.(amount := m.amount + CoinValue(literal)), Some(CoinToken(CoinValue(literal))))
    case LeaveInsertCoins => Fired(m.(state := Initial, output := m.output + [CurrentAmount(m.amount)]), None)
    case SelectProduct(code) =>
      var s := Purchase(m.amount, m.products, code);
      Fired(m.(state := Initial, amount := s.amount, products := s.products,
               output := m.output + SaleMessages(s, m.products)), Some(ProductToken(code)))
  }

  /** One scanning step of the lexer: the new state, the new cursor and the
      token, if the step produced one. */
  datatype Stepped = Stepped(after: Snapshot, next: nat, token: Option<Token>)

  /** One scanning step of the lexer at cursor `pos`: skip an ignored character,
      fire the first matching rule of the active state, or report an illegal
      character and skip it. */
  function StepModel(m: Snapshot, line: string, pos: nat): (r: Stepped)
    requires m.amount >= 0 && pos < |line|
    ensures pos < r.next <= |line| && r.after.amount >= 0
  {
    CoinLiteralsWellFormed();
    match Scan(m.state, line[pos..])
    case Skip => Stepped(m, pos + 1, None)
    case Illegal(c) => Stepped(m.(output := m.output + [IllegalCharacter(c)]), pos + 1, None)
    case Token(rule, n) =>
      var fired := Apply(m, rule);
      Stepped(fired.after, pos + n, fired.token)
  }

  /** A whole line: the final state and the tokens returned, in order. */
  datatype Ran = Ran(after: Snapshot, tokens: seq<Token>)

  /** The rest of the line from `pos`: the lexer is called until the input
      is exhausted. */
  function RunFrom(m: Snapshot, line: string, pos: nat): (r: Ran)
    requires m.amount >= 0 && pos <= |line|
    ensures r.after.amount >= 0
    decreases |line| - pos
  {
    if pos == |line| then Ran(m, [])
    else
      var step := StepModel(m, line, pos);
      var rest := RunFrom(step.after, line, step.next);
      if step.token.Some? then Ran(rest.after, [step.token.value] + rest.tokens) else rest
  }

  /** A session: the final state and the number of lines read. */
  datatype Served = Served(after: Snapshot, read: nat)

  /** The session loop: lines are read while `exit` is not set. */
  function Session(m: Snapshot, lines: seq<string>): (r: Served)
    requires m.amount >= 0
    ensures r.read <= |lines| && r.after.amount >= 0
    ensures r.read < |lines| ==> r.after.exit
    ensures m.exit ==> r == Served(m, 0)
    decreases |lines|
  {
    if m.exit || lines == [] then Served(m, 0)
    else
      var rest := Session(RunFrom(m, lines[0], 0).after, lines[1..]);
      Served(rest.after, rest.read + 1)
  }

  /** When a rule matches, the step is that rule's handler (a coin rule
      always carries a well-formed literal). */
  lemma {:induction false} StepModelToken(m: Snapshot, line: string, pos: nat, rule: Rule, n: nat)
    requires m.amount >= 0 && pos < |line|
    requires Scan(m.state, line[pos..]) == Token(rule, n)
    ensures rule.InsertCoin? ==> IsCoinLiteral(rule.literal)
    ensures StepModel(m, line, pos) == Stepped(Apply(m, rule).after, pos + n, Apply(m, rule).token)
  {
    CoinLiteralsWellFormed();
  }

  /** An ignored character is skipped and an illegal one reported; neither
      changes anything else. */
  lemma {:induction false} StepModelNoToken(m: Snapshot, line: string, pos: nat)
    requires m.amount >= 0 && pos < |line|
    requires !Scan(m.state, line[pos..]).Token?
    ensures var lexeme := Scan(m.state, line[pos..]);
            StepModel(m, line, pos) ==
              Stepped(if lexeme.Skip? then m else m.(output := m.output + [IllegalCharacter(lexeme.c)]), pos + 1, None)
  {
  }

  /** What each handler changes and what it leaves alone: the exit flag is
      set by `EXIT` in INITIAL only; only a coin raises the balance and
      otherwise only a product code can change it; the catalogue changes
      only on a product code; a product code and `EXIT` in INSERTCOINS
      always return to INITIAL. */
  lemma {:induction false} HandlerEffects(m: Snapshot, rule: Rule)
    requires m.amount >= 0
    requires rule.InsertCoin? ==> IsCoinLiteral(rule.literal)
    ensures var r := Apply(m, rule);
            && Extends(m, r.after)
            && Worth(r.after) == Worth(m) + Deposit(r.token)
            && (r.after.exit <==> m.exit || rule.ExitMachine?)
            && (rule.InsertCoin? ==> r.after.amount == m.amount + CoinValue(rule.literal))
            && (!rule.InsertCoin? && !rule.SelectProduct? ==> r.after.amount == m.amount)
            && (!rule.SelectProduct? ==> r.after.products == m.products)
            && (rule.SelectProduct? || rule.LeaveInsertCoins? ==> r.after.state == Initial)
            && (rule.ListProducts? || rule.ExitMachine? ==> r.after.state == m.state)
  {
  }

  /** One lexer step extends the state, and the balance less the stock
      value grows by exactly the coin the step returns, if any. */
  lemma {:induction false} StepExtends(m: Snapshot, line: string, pos: nat)
    requires m.amount >= 0 && pos < |line|
    ensures var r := StepModel(m, line, pos);
            && Extends(m, r.after)
            && Worth(r.after) == Worth(m) + Deposit(r.token)
            && (r.token.None? ==> r.after.amount == m.amount)
  {
    var lexeme := Scan(m.state, line[pos..]);
    if lexeme.Token? {
      StepModelToken(m, line, pos, lexeme.rule, lexeme.length);
      HandlerEffects(m, lexeme.rule);
    }
  }

  lemma {:induction false} ExtendsTransitive(a: Snapshot, b: Snapshot, c: Snapshot)
    requires Extends(a, b) && Extends(b, c)
    ensures Extends(a, c)
  {
  }

  /** A whole line extends the state, and the balance less the stock value
      grows by exactly the coins among the tokens returned: the balance is
      what was inserted less what was sold. */
  lemma {:induction false} RunFromExtends(m: Snapshot, line: string, pos: nat)
    requires m.amount >= 0 && pos <= |line|
    ensures var r := RunFrom(m, line, pos);
            Extends(m, r.after) && Worth(r.after) == Worth(m) + Deposits(r.tokens)
    decreases |line| - pos
  {
    if pos < |line| {
      var step := StepModel(m, line, pos);
      StepExtends(m, line, pos);
      RunFromExtends(step.after, line, step.next);
      var rest := RunFrom(step.after, line, step.next);
      ExtendsTransitive(m, step.after, rest.after);
      if step.token.Some? {
        assert ([step.token.value] + rest.tokens)[1..] == rest.tokens;
      }
    }
  }

  /** A session extends the state it starts from. */
  lemma {:induction false} SessionExtends(m: Snapshot, lines: seq<string>)
    requires m.amount >= 0
    ensures Extends(m, Session(m, lines).after)
    decreases |lines|
  {
    if !m.exit && lines != [] {
      var next := RunFrom(m, lines[0], 0).after;
      RunFromExtends(m, lines[0], 0);
      SessionExtends(next, lines[1..]);
      ExtendsTransitive(m, next, Session(next, lines[1..]).after);
    }
  }

  /** Buying the same product twice: when two units are in stock and the
      balance covers twice the price, both sales go through and take two
      units and twice the price; with one unit left the second attempt is
      out of stock, and with a balance short of twice the price it is too
      expensive. */
  lemma {:induction false} RepeatPurchase(amount: int, products: seq<Product>, code: string)
    requires FindProduct(products, code).Some?
    requires var p := products[FindProduct(products, code).value]; p.quantity > 0 && amount >= p.price
    ensures var i := FindProduct(products, code).value;
            var p := products[i];
            var first := Purchase(amount, products, code);
            var second := Purchase(first.amount, first.products, code);
            && first.outcome == Sold(i)
            && (p.quantity >= 2 && first.amount >= p.price ==>
                  && second.outcome == Sold(i)
                  && second.amount == amount - 2 * p.price
                  && second.products == products[i := p.(quantity := p.quantity - 2)])
            && (p.quantity == 1 ==> second.outcome == SoldOut(i))
            && (p.quantity >= 2 && first.amount < p.price ==> second.outcome == TooExpensive(i))
  {
    var i := FindProduct(products, code).value;
    var p := products[i];
    var first := Purchase(amount, products, code);
    assert first.products == products[i := p.(quantity := p.quantity - 1)];
    assert forall j :: 0 <= j < |products| ==> first.products[j].code == products[j].code;
    assert FindProduct(first.products, code) == Some(i);
  }

  /** A sample catalogue entry: one bottle of water at one unit (100 cents). */
  const Water: Product := Product("01", "Water", 1, 100)

  /** Inserting `1e` and buying the only bottle of water leaves no balance
      and no stock; buying it again finds it out of stock. */
  lemma {:induction false} ScenarioBuyLastUnit()
    ensures var m0 := Snapshot(0, false, InsertCoins, [Water], []);
            var m1 := Apply(m0, InsertCoin("1e")).after;
            var m2 := Apply(m1.(state := ProductSelection), SelectProduct("01")).after;
            var m3 := Apply(m2.(state := ProductSelection), SelectProduct("01")).after;
            && m1.amount == 100
            && m2.amount == 0 && m2.products == [Water.(quantity := 0)]
            && m2.output == [Acquired("Water"), CurrentAmount(0)]
            && m3.amount == 0 && m3.products == m2.products
            && m3.output == m2.output + [OutOfStock]
  {
    OneDigitValue("1");
    var m0 := Snapshot(0, false, InsertCoins, [Water], []);
    var m1 := Apply(m0, InsertCoin("1e")).after;
    assert FindProduct(m1.products, "01") == Some(0);
    var m2 := Apply(m1.(state := ProductSelection), SelectProduct("01")).after;
    assert FindProduct(m2.products, "01") == Some(0);
  }

  /** With no balance the water is too expensive, and nothing changes. */
  lemma {:induction false} ScenarioInsufficientFunds()
    ensures var m0 := Snapshot(0, false, ProductSelection, [Water], []);
            var m1 := Apply(m0, SelectProduct("01")).after;
            m1 == m0.(state := Initial, output := [InsufficientFunds])
  {
    assert FindProduct([Water], "01") == Some(0);
  }

  /** Inserting `50c`, `20c` and `5c` gives a balance of 75 cents, and
      `EXIT` gives back one coin each of 50, 20 and 5 cents. */
  lemma {:induction false} ScenarioChange()
    ensures var m0 := Snapshot(0, false, InsertCoins, [], []);
            var m1 := Apply(m0, InsertCoin("50c")).after;
            var m2 := Apply(m1, InsertCoin("20c")).after;
            var m3 := Apply(m2, InsertCoin("5c")).after;
            var m4 := Apply(m3.(state := Initial), ExitMachine).after;
            && m3.amount == 75
            && m4.exit && m4.amount == 75
            && m4.output == [ChangeGiven([0, 0, 1, 1, 0, 1, 0, 0]), ThankYou]
  {
    assert "50c"[..2] == "50" && "20c"[..2] == "20" && "5c"[..1] == "5";
    TwoDigitsValue("50");
    TwoDigitsValue("20");
    OneDigitValue("5");
    Change.ChangeOfSeventyFive();
  }

  /** An unknown code is reported and changes neither balance nor stock. */
  lemma {:induction false} ScenarioUnknownCode()
    ensures var m0 := Snapshot(100, false, ProductSelection, [Water], []);
            var m1 := Apply(m0, SelectProduct("99")).after;
            m1 == m0.(state := Initial, output := [NotFound])
  {
    assert FindProduct([Water], "99") == None by {
      assert Water.code[0] != '9';
    }
  }

  /** The vending machine object: balance, exit flag, active lexer state,
      catalogue, and what it has printed. */
  class Machine {
    var amount: int
    var exit: bool
    var state: LexState
    var products: seq<Product>
    var output: seq<Message>

    ghost function View(): Snapshot
      reads this
    {
      Snapshot(amount, exit, state, products, output)
    }

    /** The balance is never negative. */
    ghost predicate Valid()
      reads this
    {
      amount >= 0
    }

    /** A machine with no balance, in INITIAL, over the given catalogue. */
    constructor (catalogue: seq<Product>)
      ensures Valid() && View() == Snapshot(0, false, Initial, catalogue, [])
    {
      amount := 0;
      exit := false;
      state := Initial;
      products := catalogue;
      output := [];
    }

    /** `COIN` in INITIAL: switch to INSERTCOINS, nothing else. */
    method OnCoin()
      modifies this
      ensures state == InsertCoins
      ensures amount == old(amount) && exit == old(exit) && products == old(products) && output == old(output)
    {
      state := InsertCoins;
    }

    /** A coin literal in INSERTCOINS: the balance grows by its value. */
    method OnInsertCoin(literal: string) returns (token: Token)
      requires IsCoinLiteral(literal)
      modifies this
      ensures amount == old(amount) + CoinValue(literal) && token == CoinToken(CoinValue(literal))
      ensures state == old(state) && exit == old(exit) && products == old(products) && output == old(output)
    {
      var n := DigitsValue(literal[..|literal| - 1]);
      var value := if literal[|literal| - 1] == 'c' then n else 100 * n;
      amount := amount + value;
      token := CoinToken(value);
    }

    /** `EXIT` in INSERTCOINS: print the balance and go back to INITIAL;
        neither the balance nor the exit flag changes. */
    method OnInsertCoinsExit()
      modifies this
      ensures state == Initial && output == old(output) + [CurrentAmount(amount)]
      ensures amount == old(amount) && exit == old(exit) && products == old(products)
    {
      output := output + [CurrentAmount(amount)];
      state := Initial;
    }

    /** `PRODUCT` in INITIAL: switch to PRODUCTSELECTION, nothing else. */
    method OnProduct()
      modifies this
      ensures state == ProductSelection
      ensures amount == old(amount) && exit == old(exit) && products == old(products) && output == old(output)
    {
      state := ProductSelection;
    }

    /** A two-digit code in PRODUCTSELECTION: back to INITIAL, then look the
        code up in the catalogue in order and attempt the purchase. */
    method OnProductCode(code: string) returns (token: Token)
      requires Valid()
      modifies this
      ensures Valid() && state == Initial && exit == old(exit) && token == ProductToken(code)
      ensures var s := Purchase(old(amount), old(products), code);
              amount == s.amount && products == s.products
              && output == old(output) + SaleMessages(s, old(products))
    {
      token := ProductToken(code);
      state := Initial;
      var i := 0;
      while i < |products|
        invariant 0 <= i <= |products|
        invariant forall j :: 0 <= j < i ==> products[j].code != code
        invariant products == old(products) && amount == old(amount) && output == old(output)
      {
        var p := products[i];
        if p.code == code {
          if p.quantity <= 0 {
            output := output + [OutOfStock];
            return;
          }
          if amount < p.price {
            output := output + [InsufficientFunds];
            return;
          }
          amount := amount - p.price;
          products := products[i := p.(quantity := p.quantity - 1)];
          output := output + [Acquired(p.name), CurrentAmount(amount)];
          return;
        }
        i := i + 1;
      }
      output := output + [NotFound];
    }

    /** The error rule of every state: report the character (the caller skips it). */
    method OnError(c: char)
      modifies this
      ensures output == old(output) + [IllegalCharacter(c)]
      ensures amount == old(amount) && exit == old(exit) && state == old(state) && products == old(products)
    {
      output := output + [IllegalCharacter(c)];
    }

    /** `LIST` in INITIAL: print the catalogue and change nothing. */
    method OnList() returns (token: Token)
      modifies this
      ensures output == old(output) + [Catalogue(products)] && token == ListToken
      ensures amount == old(amount) && exit == old(exit) && state == old(state) && products == old(products)
    {
      output := output + [Catalogue(products)];
      token := ListToken;
    }

    /** `EXIT` in INITIAL: set the exit flag and print the change for the
        balance; the balance and the catalogue are left as they are. */
    method OnExit()
      requires Valid()
      modifies this
      ensures Valid() && exit && output == old(output) + [ChangeGiven(Change.ChangeFor(amount)), ThankYou]
      ensures amount == old(amount) && state == old(state) && products == old(products)
    {
      exit := true;
      var counts := Change.CalculateChange(amount);
      output := output + [ChangeGiven(counts), ThankYou];
    }

    /** Run the handler of a matched rule. */
    method Fire(rule: Rule) returns (token: Option<Token>)
      requires Valid() && (rule.InsertCoin? ==> IsCoinLiteral(rule.literal))
      modifies this
      ensures Valid() && Fired(View(), token) == Apply(old(View()), rule)
    {
      match rule
      case BeginInsertCoins =>
        OnCoin();
        token := None;
      case BeginProductSelection =>
        OnProduct();
        token := None;
      case ListProducts =>
        var t := OnList();
        token := Some(t);
      case ExitMachine =>
        OnExit();
        token := None;
      case InsertCoin(literal) =>
        var t := OnInsertCoin(literal);
        token := Some(t);
      case LeaveInsertCoins =>
        OnInsertCoinsExit();
        token := None;
      case SelectProduct(code) =>
        var t := OnProductCode(code);
        token := Some(t);
    }

    /** One scanning step of the lexer at `pos`. A call of `lexer.token()`
        takes as many of these steps as it needs to produce a token. */
    method Step(line: string, pos: nat) returns (next: nat, token: Option<Token>)
      requires Valid() && pos < |line|
      modifies this
      ensures Valid() && Stepped(View(), next, token) == StepModel(old(View()), line, pos)
    {
      var lexeme := Scan(state, line[pos..]);
      if lexeme.Token? {
        next, token := Match(line, pos);
      } else {
        StepModelNoToken(View(), line, pos);
        if lexeme.Illegal? {
          OnError(lexeme.c);
        }
        next, token := pos + 1, None;
      }
    }

    /** A rule of the active state matches at `pos`: run its handler and
        move the cursor past the matched text. */
    method Match(line: string, pos: nat) returns (next: nat, token: Option<Token>)
      requires Valid() && pos < |line| && Scan(state, line[pos..]).Token?
      modifies this
      ensures Valid() && Stepped(View(), next, token) == StepModel(old(View()), line, pos)
    {
      var lexeme := Scan(state, line[pos..]);
      StepModelToken(View(), line, pos, lexeme.rule, lexeme.length);
      token := Fire(lexeme.rule);
      next := pos + lexeme.length;
    }

    /** Feed one input line to the lexer and pull tokens until it is
        exhausted; gives the tokens in the order they were returned. */
    method ProcessLine(line: string) returns (tokens: seq<Token>)
      requires Valid()
      modifies this
      ensures Valid() && Ran(View(), tokens) == RunFrom(old(View()), line, 0)
    {
      var pos := 0;
      tokens := [];
      while pos < |line|
        invariant pos <= |line| && Valid()
        invariant RunFrom(View(), line, pos).after == RunFrom(old(View()), line, 0).after
        invariant tokens + RunFrom(View(), line, pos).tokens == RunFrom(old(View()), line, 0).tokens
        decreases |line| - pos
      {
        var token;
        pos, token := Step(line, pos);
        if token.Some? {
          tokens := tokens + [token.value];
        }
      }
      assert tokens + [] == tokens;
    }

    /** The session loop: read lines while the exit flag is not set. */
    method Serve(lines: seq<string>) returns (read: nat)
      requires Valid()
      modifies this
      ensures Valid() && Served(View(), read) == Session(old(View()), lines)
    {
      read := 0;
      while !exit && read < |lines|
        invariant read <= |lines| && Valid()
        invariant Session(View(), lines[read..]).after == Session(old(View()), lines).after
        invariant read + Session(View(), lines[read..]).read == Session(old(View()), lines).read
        decreases |lines| - read
      {
        assert lines[read..][1..] == lines[read + 1..];
        var tokens := ProcessLine(lines[read]);
        read := read + 1;
      }
    }
  }
}
