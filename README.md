# Verified model of the PL2024 language-processing exercises

This project models five small Python programs written for a language
processing course, and it proves what each one does:

- **TPC5, vending machine** (`vending_machine.dfy`, `vending_lexer.dfy`,
  `change.dfy`). The machine is driven by a lexer with three exclusive
  states: `INITIAL`, `INSERTCOINS` and `PRODUCTSELECTION`. Its handlers
  accept coins, sell products from a catalogue, list the catalogue and give
  change greedily on `EXIT`.
  - The machine object becomes the class `VendingMachine.Machine`, one
    method per handler. Each method is proved against the pure step
    function `VendingMachine.Apply`.
  - The change calculator is a method with a loop, proved against
    `Change.ChangeFor`.
  - Money is counted in cents.
- **TPC3, on/off adding calculator** (`calculator.dfy`). An ordered regular
  expression alternation tokenises standard input. Integers are added while
  the calculator is on; `=` prints the running total.
- **TPC2, Markdown to HTML** (`markdown.dfy`). Six line recognisers are
  tried in order: title, bold, italic, image, link and list item. Each one
  has its own HTML emitter. `<ul>`/`<ol>` tags are opened and closed around
  runs of list items.
- **TPC4, SQL-like lexer** (`sql_lexer.dfy`). It works like a `ply` lexer:
  - words are classified as keywords, case-insensitively, or as fields;
  - numbers are integers or decimals;
  - comparison and arithmetic operators, `,` and `;` are tokens;
  - newlines are counted, blanks are ignored, and unexpected characters are
    reported and skipped.

  The lexer object becomes the class `SqlLexer.Lexer`.
- **TPC1, athletes CSV summary** (`athletes.dfy`). Every data line of the
  medical-exam file is stripped, split on `,`, and its modality, result and
  age columns are read. The program prints the sorted distinct
  modalities, the number of fit athletes among all of them, and a
  histogram of ages in five-year groups.

`common.dfy` holds the vocabulary the programs share:
- Option and Result;
- ordered first match;
- the character classes and string methods Python provides (`str.strip`,
  `str.lower`, `\s`, `\d`).

## Model

| member | source | states |
|---|---|---|
| Common.FirstIndex | TPC3/main.py:15-16 | the chosen alternative accepts, every earlier one rejects, and none is chosen only when all reject: how an alternation of named groups picks its branch |
| Common.Strip | TPC1/main.py:33 | `str.strip()` leaves no whitespace at either end |
| Common.StripKeeps | TPC1/main.py:33 | stripping text that has no surrounding whitespace returns it unchanged |
| Common.TrimStartSkips | TPC1/main.py:33 | any whitespace before text that does not start with whitespace is dropped, and nothing else |
| Common.TrimEndSkips | TPC1/main.py:33 | any whitespace after text that does not end with whitespace is dropped, and nothing else |
| Common.StripSurrounded | TPC1/main.py:33 | stripped text with any whitespace before and after strips back to the text |
| Common.TrimStartMeaning | TPC2/main.py:13 | `lstrip` drops exactly the leading whitespace run and keeps the rest as a suffix |
| Common.TrimEndMeaning | TPC2/main.py:13 | `rstrip` drops exactly the trailing whitespace run and keeps the rest as a prefix |
| Common.Lower | TPC1/main.py:35 | `str.lower()` maps each character to its lower case and keeps the length |
| Common.NatToStringRoundTrip | TPC3/main.py:33 | `int()` reads back the decimal digits `str()` writes for a natural number |
| Change.CoinsDescending | TPC5/main.py:14-23 | the eight denominations (in cents) are positive and strictly decreasing, and the last one is the 1-cent coin |
| Change.CalculateChange | TPC5/main.py:25-31 | the loop yields the greedy counts: each one is what is left after the larger coins, divided by the coin. Together they pay back exactly the amount, as `ChangeFor` does |
| Change.ChangeFor | TPC5/main.py:25-31 | the specification of the change: the greedy decomposition of the amount |
| Change.GreedyCounts | TPC5/main.py:27-29 | every count taken is the whole number of that coin that fits in the remainder |
| Change.GreedyChangeIsExact | TPC5/main.py:25-31 | greedy counts are worth exactly the amount, with nothing lost |
| Change.ValuePlusRemainder | TPC5/main.py:27-29 | after the first k coins, the value paid out plus the remainder is the amount (the loop's invariant) |
| Change.GreedyChangeIsUnique | TPC5/main.py:25-31 | exactly one count vector is greedy for a given amount |
| Change.GreedyIsOptimal | TPC5/main.py:25-31 | no way of paying the amount in these eight denominations uses fewer coins than the greedy change |
| Change.ExchangeShrinks | TPC5/main.py:14-23 | replacing a group of small coins by one larger coin of the same total (two 1c by a 2c, 2c+2c+1c by a 5c, two 50c by a 1e, and so on) keeps the value and lowers the coin count |
| Change.FewestIsGreedy | TPC5/main.py:25-31 | a count vector in which no such replacement applies is the greedy change of its own value |
| Change.GreedyAbove | TPC5/main.py:27-29 | in such a vector, the counts of 2e, 1e, 50c and 20c are each what the greedy loop takes, and what is left is the value of the smaller coins |
| Change.GreedyBelow | TPC5/main.py:27-29 | when what is left after 20c is the value of the smaller coins of such a vector, the counts of 10c, 5c, 2c and 1c are each what the greedy loop takes |
| Change.ChangeOfSeventyFive | TPC5/main.py:25-31 | 75 cents is returned as one 50c, one 20c and one 5c coin |
| Change.ChangeOfZero | TPC5/main.py:25-31 | nothing owed yields zero coins of every kind |
| VendingLexer.CoinLiteralsAreDenominations | TPC5/main.py:73-79 | the coin rule's eight literals, read as hundredths (`c`) or whole units (`e`), are the eight denominations in the same order |
| VendingLexer.CoinLiteralsWellFormed | TPC5/main.py:74 | every literal of the coin alternation is a digit run followed by `c` or `e` |
| VendingLexer.CoinLiteralsDistinctHeads | TPC5/main.py:74 | no two coin literals share their first two characters, so the order of the alternation cannot change what is read |
| VendingLexer.Rules | TPC5/main.py:69-127 | every state has rules; the coin rule belongs to `INSERTCOINS` only, the product rule to `PRODUCTSELECTION` only, and the `EXIT` that ends the session to `INITIAL` only |
| VendingLexer.MatchLength | TPC5/main.py:69-127 | a keyword rule matches if and only if the input starts with its word, and then consumes exactly it. The coin rule matches if and only if some literal starts the input, and consumes a literal. The product rule matches if and only if two digits start the input, and consumes two |
| VendingLexer.Scan | TPC5/main.py:46-127 | one lexer decision in a state: the state's ignored characters are skipped; a coin is read only in `INSERTCOINS` and a product code only in `PRODUCTSELECTION`; a character no rule of the state matches is illegal |
| VendingLexer.ScanFirstMatch | TPC5/main.py:69-127 | the first of the state's rules, in definition order, that matches is the one that fires |
| VendingLexer.CoinLiteralMatch | TPC5/main.py:74 | a coin literal at the head of the input is consumed whole |
| VendingLexer.ScanCoinLiteral | TPC5/main.py:73-81 | in `INSERTCOINS` a coin literal is read as that coin, whatever follows it |
| VendingLexer.InitialKeywordsDistinctHeads | TPC5/main.py:69-127 | the rules of `INITIAL` are the four keywords, and each starts with a different letter |
| VendingLexer.ScanInitialKeyword | TPC5/main.py:69-127 | each keyword of `INITIAL` fires its own handler, whatever follows it |
| VendingLexer.ScanInitialKeywords | TPC5/main.py:69-127 | `COIN`, `PRODUCT`, `LIST` and `EXIT` are each read as their own rule with their own length |
| VendingLexer.ScanProductCode | TPC5/main.py:92-94 | in `PRODUCTSELECTION` any two digits are read as a product code |
| VendingMachine.FindProduct | TPC5/main.py:96-97 | returns the first product with the code; there is none if and only if no product has it |
| VendingMachine.StockValueDecrement | TPC5/main.py:106-107 | selling one unit lowers the catalogue's stock value by exactly its price |
| VendingMachine.Purchase | TPC5/main.py:92-113 | the four outcomes. "Not found" if and only if no product has the code. "Out of stock" when its quantity is not positive. "Insufficient funds" when it is in stock but dearer than the amount. Otherwise sold: the amount drops by the price and only that product loses one unit. Nothing changes unless sold. The amount never goes negative, and amount minus stock value is kept |
| VendingMachine.Apply | TPC5/main.py:69-133 | firing any handler keeps the amount non-negative |
| VendingMachine.StepModel | TPC5/main.py:143-146 | every lexer step consumes at least one character and keeps the amount non-negative |
| VendingMachine.RunFrom | TPC5/main.py:141-146 | lexing a whole line keeps the amount non-negative |
| VendingMachine.Session | TPC5/main.py:135-146 | the session reads no more lines than it is given, and stops early only once `EXIT` has been handled; after that it reads nothing |
| VendingMachine.StepModelToken | TPC5/main.py:143-146 | a step that matches a rule fires that rule's handler and moves past the matched text |
| VendingMachine.StepModelNoToken | TPC5/main.py:115-117 | a step that matches no rule skips one character: silently for an ignored character, otherwise printing "Illegal character" |
| VendingMachine.HandlerEffects | TPC5/main.py:69-133 | every handler keeps the exit flag once set; keeps every product's code, name and price, and never raises stock; raises amount plus stock value by exactly the coins inserted; sets the exit flag if and only if it is the session `EXIT`; changes the amount only for coins (up by their value) and sales; changes the catalogue only for product codes; after a product code or the coin-entry `EXIT`, is back in `INITIAL`; after `LIST` or `EXIT`, stays in the same state. |
| VendingMachine.StepExtends | TPC5/main.py:143-146 | the same invariants over one lexer step, and a step that yields no token keeps the amount |
| VendingMachine.RunFromExtends | TPC5/main.py:141-146 | over a line, amount plus stock value grows by exactly the coins inserted, and the invariants hold |
| VendingMachine.SessionExtends | TPC5/main.py:135-146 | the exit flag, the catalogue's names and prices, and the never-rising stock are kept across the whole session |
| VendingMachine.RepeatPurchase | TPC5/main.py:92-113 | buying the same product twice: the second purchase succeeds when stock and money allow and then charges twice the price. It is out of stock after the last unit, and refused when the money ran out |
| VendingMachine.ScenarioBuyLastUnit | TPC5/main.py:92-110 | inserting 1e and buying a 1e product sells the last unit with amount 0; buying it again prints "out of stock" |
| VendingMachine.ScenarioInsufficientFunds | TPC5/main.py:102-104 | with no money a purchase prints "Insufficient funds", changes nothing and returns to `INITIAL` |
| VendingMachine.ScenarioChange | TPC5/main.py:126-133 | 50c + 20c + 5c, then `EXIT`, gives back one 50c, one 20c and one 5c coin and ends the session |
| VendingMachine.ScenarioUnknownCode | TPC5/main.py:112-113 | an unknown code prints "Product not found" and changes nothing else |
| VendingMachine.Machine.constructor | TPC5/main.py:54-59 | a new machine holds no money, is not exited, is in `INITIAL` and has the given catalogue |
| VendingMachine.Machine.OnCoin | TPC5/main.py:69-71 | `COIN` switches to `INSERTCOINS` and changes nothing else |
| VendingMachine.Machine.OnInsertCoin | TPC5/main.py:73-81 | a coin adds its value to the amount and is returned as a token |
| VendingMachine.Machine.OnInsertCoinsExit | TPC5/main.py:83-86 | the coin-entry `EXIT` prints the amount and returns to `INITIAL`, keeping the amount |
| VendingMachine.Machine.OnProduct | TPC5/main.py:88-90 | `PRODUCT` switches to `PRODUCTSELECTION` and changes nothing else |
| VendingMachine.Machine.OnProductCode | TPC5/main.py:92-113 | a code returns to `INITIAL` and applies `Purchase` to the amount and catalogue, printing its messages |
| VendingMachine.Machine.OnError | TPC5/main.py:115-117 | an illegal character is reported and changes nothing else |
| VendingMachine.Machine.OnList | TPC5/main.py:119-124 | `LIST` prints the catalogue and changes nothing else |
| VendingMachine.Machine.OnExit | TPC5/main.py:126-133 | `EXIT` sets the exit flag and prints the greedy change of the amount and the farewell |
| VendingMachine.Machine.Fire | TPC5/main.py:69-133 | dispatching a rule to its handler changes the machine as `Apply` says |
| VendingMachine.Machine.Step | TPC5/main.py:143-146 | one scanning step of the lexer (skip an ignored character, fire a rule, or report an illegal character) changes the machine as `StepModel` says; a call of `lexer.token()` is a run of such steps |
| VendingMachine.Machine.Match | TPC5/main.py:69-127 | a step that matched a rule changes the machine as `StepModel` says |
| VendingMachine.Machine.ProcessLine | TPC5/main.py:141-146 | lexing one input line changes the machine as `RunFrom` says |
| VendingMachine.Machine.Serve | TPC5/main.py:139-146 | the read loop changes the machine as `Session` says |
| Calculator.MatchLengthMeaning | TPC3/main.py:6-13 | each pattern's match, as the `re` engine reads it: `INT` matches if and only if a digit, or a sign then a digit, starts the input, and it takes the whole digit run; `ON`/`OFF` match their word in any case; `EQ` takes one `=`; `SKIP` takes the whole whitespace run; `UNKNOWN` takes any one character but a newline. |
| Calculator.IntValue | TPC3/main.py:33 | `int()` of the matched text: negative only for a leading `-`, and non-zero only for a signed digit run |
| Calculator.NextToken | TPC3/main.py:28-30 | each match consumes at least one character and stays within the input |
| Calculator.NextTokenIsFirstMatch | TPC3/main.py:15-16 | the token's text is the input's prefix that its kind matches, and no earlier alternative matches |
| Calculator.NextTokenIntText | TPC3/main.py:32-33 | an `INT` token always carries a signed digit run, so `int()` always succeeds on it |
| Calculator.Tokenize | TPC3/main.py:27-30 | the loop's matches, in order: there is a token exactly when there is input, no more tokens than characters, and no token is empty |
| Calculator.TokenizeCoversInput | TPC3/main.py:27-30 | the tokens' texts concatenate back to the whole input: the loop consumes everything |
| Calculator.Exec | TPC3/main.py:32-41 | one token's branch: only an `INT` read while on changes the total, only `ON` and `OFF` change the flag, and only `=` writes, appending the total |
| Calculator.Run | TPC3/main.py:27-41 | running over tokens never takes back a printed line |
| Calculator.RunFirstToken | TPC3/main.py:27-41 | the loop handles the first token, then the rest |
| Calculator.Evaluate | TPC3/main.py:27-41 | moving the cursor to the end never takes back a printed line |
| Calculator.EvaluateIsRun | TPC3/main.py:27-41 | the cursor loop gives the same result as running the handlers over the token list |
| Calculator.Calculate | TPC3/main.py:18-41 | the program's total, on flag and printed lines are those of the evaluation starting at total 0, switched on |
| Calculator.React | TPC3/main.py:32-41 | one token changes total, flag and output as its handler says |
| Calculator.SpaceIsSkipped | TPC3/main.py:11 | at a whitespace character the whole whitespace run is skipped |
| Calculator.OnInAnyCase | TPC3/main.py:8 | `on` in any mix of cases is the `ON` token |
| Calculator.OffInAnyCase | TPC3/main.py:9 | `off` in any mix of cases is the `OFF` token |
| Calculator.NumberIsReadBack | TPC3/main.py:7 | a written natural number is read back as that number |
| Calculator.NegativeNumberIsReadBack | TPC3/main.py:7 | a `-` followed by a number is read back as its negative |
| Calculator.RunAppend | TPC3/main.py:27-41 | running two token lists one after the other is running their concatenation |
| Calculator.RunSumsWhileOn | TPC3/main.py:32-37 | after any prefix of the tokens, the total is the start total plus the integers read while on, and the flag is set by the last `ON` or `OFF` so far (the start flag if none) |
| Calculator.TotalIsSumWhileOn | TPC3/main.py:32-37 | whatever the switches, the final total is the start total plus every integer read while the calculator is on |
| Calculator.EqPrintsSumWhileOn | TPC3/main.py:32-39 | the line an `=` prints is the start total plus the integers read while on before it |
| Calculator.RunThroughEq | TPC3/main.py:38-39 | handling the tokens up to an `=` appends the total reached just before it |
| Calculator.ProgramPrintsSumsWhileOn | TPC3/main.py:18-41 | the program prints, at each `=`, the sum of the integers read while on before it, starting from 0 switched on |
| Calculator.EqPrintsTotal | TPC3/main.py:38-39 | `=` prints the current total and changes nothing else |
| Calculator.PrintedGrows | TPC3/main.py:38-39 | the output only grows, by one line per `=` token |
| Calculator.AlwaysOnSumsAll | TPC3/main.py:32-33 | while never switched off, the total grows by the sum of every integer read |
| Calculator.OffIgnoresNumbers | TPC3/main.py:32-37 | while off and never switched on, no integer changes the total |
| Calculator.NoiseIsIgnored | TPC3/main.py:40-41 | whitespace and unknown characters have no effect at all |
| Calculator.TokensOfSwitchingOff | TPC3/main.py:6-16 | `2off3=` is read as 2, `off`, 3, `=` |
| Calculator.RunOfSwitchingOff | TPC3/main.py:32-39 | those tokens print 2: the 3 arrives while off |
| Calculator.ScenarioSwitchingOff | TPC3/main.py:18-41 | the program prints 2 for `2off3=` and ends switched off |
| Markdown.Body | TPC2/main.py:12 | the text `$` anchors before is the line less at most one final newline |
| Markdown.MatchTitle | TPC2/main.py:7-13 | a found title has level at least 1 and stripped content |
| Markdown.TitleMeaning | TPC2/main.py:7-13 | a title if and only if the line body has at least two characters, starts with `#` and has no newline. Its level is the leading run of `#`, which must leave at least one character. Its content is the rest, stripped |
| Markdown.TitleRoundTrip | TPC2/main.py:7-13 | `#`×n, a space and stripped text read back as a level-n title of that text |
| Markdown.MatchBold | TPC2/main.py:19-25 | a found bold has stripped content |
| Markdown.BoldMeaning | TPC2/main.py:19-25 | bold if and only if the body is wrapped in the same `**` or `__` with no `*` inside; the content is the inside, stripped |
| Markdown.BoldRoundTrip | TPC2/main.py:19-25 | wrapping stripped text without `*` in `**` or `__` reads back as bold of that text |
| Markdown.MatchItalic | TPC2/main.py:31-37 | a found italic has stripped content |
| Markdown.ItalicMeaning | TPC2/main.py:31-37 | italic if and only if the body is wrapped in the same `*` or `_` with no `*` inside; the content is the inside, stripped |
| Markdown.ItalicRoundTrip | TPC2/main.py:31-37 | wrapping stripped text without `*` in `*` or `_` reads back as italic of that text |
| Markdown.MatchImage | TPC2/main.py:43-49 | a found image is `!` followed by a link spelled `[alt](url)`, with non-empty alt free of `]` and non-empty URL free of `)` |
| Markdown.ImageMeaning | TPC2/main.py:43-49 | a found image has non-empty alt and URL, without `]` and `)` respectively, and the line starts with exactly `![alt](url)` |
| Markdown.ImageRoundTrip | TPC2/main.py:43-49 | `![alt](url)`, followed by anything, reads back as that image |
| Markdown.MatchLink | TPC2/main.py:55-61 | a found link is spelled `[text](url)` at the start of the line |
| Markdown.LinkRoundTrip | TPC2/main.py:55-61 | `[text](url)`, followed by anything, reads back as that link |
| Markdown.LinkSpelledIsRead | TPC2/main.py:55-61 | whatever is spelled as a link at the start of the line is found as that link |
| Markdown.MatchLinkAtSpelled | TPC2/main.py:60 | a link found at the start of the line is spelled there as `[text](url)` with non-empty text free of `]` and non-empty URL free of `)` |
| Markdown.RunBeforeMeaning | TPC2/main.py:60 | the run that `[^\]]+` or `[^)]+` takes holds no closing delimiter |
| Markdown.LinkPartsAreRead | TPC2/main.py:60-61 | when the two runs end at `]` and `)`, the match yields exactly the text and URL between the delimiters |
| Markdown.MatchItem | TPC2/main.py:71-83 | a found item has non-empty content on one line |
| Markdown.ItemMeaning | TPC2/main.py:71-83 | a found item is a marker, a space and non-empty content. It is ordered if and only if the marker is digits and a dot, and unordered if and only if it is one of `*+-` |
| Markdown.UnorderedItemRoundTrip | TPC2/main.py:71-83 | `*`, `+` or `-`, a space and text read back as an unordered item of that text |
| Markdown.OrderedItemRoundTrip | TPC2/main.py:71-83 | a number, `. ` and text read back as an ordered item of that text |
| Markdown.HtmlHeader | TPC2/main.py:15-17 | a header of level n is one element named `h` and n's decimal digits, around the content |
| Markdown.HtmlBold | TPC2/main.py:27-29 | bold text is one `b` element around the content |
| Markdown.HtmlItalic | TPC2/main.py:39-41 | italic text is one `i` element around the content |
| Markdown.HtmlImage | TPC2/main.py:51-53 | an image is an `img` tag with no content: the URL is its `src` attribute and the text its `alt` attribute, in that order |
| Markdown.HtmlLink | TPC2/main.py:63-65 | a link is one `a` element whose only attribute is `href`, the URL, around the text |
| Markdown.HtmlItem | TPC2/main.py:93-95 | a list item is one `li` element around the content |
| Markdown.ElementContent | TPC2/main.py:15-95 | what lies between an element's two tags is exactly its content, so no emitter alters the text it wraps |
| Markdown.ListTags | TPC2/main.py:85-91 | the start and end list tags open and close the element named `ul` for an unordered list and `ol` for an ordered one |
| Markdown.ListIsElement | TPC2/main.py:85-91 | a list opened and closed with the same type is one `ul` or `ol` element around its items |
| Markdown.FirstHit | TPC2/main.py:113-117 | the recogniser used is the first, in list order, whose match is truthy |
| Markdown.OnlyItemCanHit | TPC2/main.py:104-117 | a line starting with `-`, `+` or a digit can only be a list item, or plain text |
| Markdown.WrapAsWritten | TPC2/main.py:125-136 | the list tags in the order the code emits them; afterwards the item's own list type is the open one |
| Markdown.ListSwitchAsWritten | TPC2/main.py:133-136 | switching between list types emits the new start tag before the old end tag, e.g. `<ol></ul>`, which does not bracket |
| Markdown.Wrap | TPC2/main.py:125-136 | corrected tags: they open a list only when none is open and close only the open one. They leave exactly the item's list open, and are empty if and only if the list state does not change |
| Markdown.WrapIsShortest | TPC2/main.py:125-136 | no well-bracketed tag sequence reaching the same list state is shorter |
| Markdown.WrapAsWrittenReorders | TPC2/main.py:125-136 | the code writes the same tags as the corrected wrapping, and exactly the same wrapping if and only if the item does not switch from one list type to the other |
| Markdown.WrapBy | TPC2/main.py:125-136 | either wrapping leaves exactly the item's list type open; the corrected one is also well bracketed |
| Markdown.LineStep | TPC2/main.py:113-143 | with the corrected wrapping, the tags any line emits are well bracketed from the old list state to the new one |
| Markdown.LineStepAgrees | TPC2/main.py:113-143 | a line takes both wrappings to the same list state with the same tags up to order, and to the very same step unless it switches list type |
| Markdown.ItemLineStep | TPC2/main.py:125-136 | an item line emits the wrapping's list tags, then `<li>content</li>`, and leaves its own list type open |
| Markdown.Emit | TPC2/main.py:113-123 | each found element is written as the HTML element of its kind: `h<level>`, `b`, `i`, `a` with its `href`, or `li`, around its text, and an image as `img` with `src` and `alt` |
| Markdown.Process | TPC2/main.py:102-143 | processing a line only appends to the HTML |
| Markdown.ProcessLine | TPC2/main.py:102-143 | the method's HTML and list state are those of `Process` with the tags in the order the code writes them |
| Markdown.EmitFirstHit | TPC2/main.py:114-138 | emitting the first truthy match gives what `Process` gives with the tags in the order the code writes them |
| Markdown.WrapElement | TPC2/main.py:125-136 | the element is prefixed by exactly the tags of `WrapAsWritten`, so on a switch the new start tag comes before the old end tag, and the item's list type is left open |
| Markdown.Convert | TPC2/main.py:145-152 | the output is every line processed in order as the code does it, starting outside any list |
| Markdown.ConvertFrom | TPC2/main.py:145-152 | converting the remaining lines only appends to the HTML so far |
| Markdown.ConvertIsRender | TPC2/main.py:145-152 | with either wrapping, converting appends each line's rendering, in order, to what came before |
| Markdown.ConvertIsBracketed | TPC2/main.py:145-152 | with the corrected wrapping, the list tags of a whole document are well bracketed; the program's own tags are not, on a switch |
| Markdown.ConvertSameState | TPC2/main.py:145-152 | the program and the corrected converter end every document in the same list state |
| Markdown.TraceReorders | TPC2/main.py:145-152 | over a whole document the program writes the same list tags as the corrected converter, only in another order |
| Markdown.ConvertAgreesWithoutSwitch | TPC2/main.py:145-152 | on a document where no item switches list type, the program writes exactly what the corrected converter writes |
| Markdown.DocumentSwitchAsWritten | TPC2/main.py:129-138 | the program turns `- a` then `1. b` into `<ul><li>a</li><ol></ul><li>b</li>` |
| Markdown.ListSwitch | TPC2/main.py:133-136 | the corrected converter turns `- a` then `1. b` into `<ul><li>a</li></ul><ol><li>b</li>` |
| Markdown.TwoItemLines | TPC2/main.py:129-136 | `- a` then `1. b` give `<ul>`, the first item, the wrapping's switch tags and the second item |
| Markdown.SwitchingItemLine | TPC2/main.py:133-136 | an ordered item inside an unordered list writes the wrapping's switch tags, then the item, and leaves the ordered list open |
| Markdown.FirstItemLine | TPC2/main.py:129-131 | the first item opens its list |
| Markdown.ListOpenAtEnd | TPC2/main.py:145-152 | a list still open at the end of the input is not closed: `- a` alone gives `<ul><li>a</li>` |
| Markdown.BlankLineKeepsList | TPC2/main.py:140-143 | an unrecognised line is copied as is and keeps the list open |
| SqlLexer.Classify | TPC4/main.py:31-35 | a word is a field or a keyword; it is never `COMMAND` |
| SqlLexer.ReservedWordsAreLowerCase | TPC4/main.py:6-20 | the reserved words are non-empty and lower case, so comparing lower-cased words finds them |
| SqlLexer.ReservedWordInAnyCase | TPC4/main.py:33-34 | a reserved word in any case is its keyword |
| SqlLexer.ClassifyKeyword | TPC4/main.py:33-34 | `SeLeCt` is the `SELECT` keyword |
| SqlLexer.ClassifyField | TPC4/main.py:34 | `Name` is a field |
| SqlLexer.ClassifyIgnoresCase | TPC4/main.py:33-34 | words that differ only in case are classified alike |
| SqlLexer.WordLengthMeaning | TPC4/main.py:31-32 | a matched word is a run of ASCII letters with a word boundary on each side |
| SqlLexer.WordIsTheOnlyMatch | TPC4/main.py:32 | a letter run bounded on both sides is matched whole |
| SqlLexer.NumberLengthMeaning | TPC4/main.py:41-42 | a number is matched if and only if a digit starts the input. It takes all the digits, plus a dot and the fraction digits when a digit follows the dot |
| SqlLexer.NumberValue | TPC4/main.py:41-44 | a number never becomes text; it is an integer if and only if the match is digits alone, and otherwise a decimal whose scale is the number of digits after the point |
| SqlLexer.OperatorIsFirstAlternative | TPC4/main.py:47 | the operator read is the first alternative, in pattern order, that matches |
| SqlLexer.OperatorIsLongest | TPC4/main.py:47 | no operator alternative that matches is longer than the one read, so `>=` and `<=` win |
| SqlLexer.OperatorMatchIsAlternative | TPC4/main.py:47 | whatever the operator rule reads is one of its alternatives |
| SqlLexer.RulesAreDisjoint | TPC4/main.py:31-58 | words, numbers, operators and newlines start with different characters, so rule order cannot change the result |
| SqlLexer.Scan | TPC4/main.py:31-58 | one lexer decision: blank and tab are ignored. A newline run is counted. A match never yields `COMMAND` and consumes something. An unexpected character is one that no rule can start with |
| SqlLexer.NextToken | TPC4/main.py:31-58 | the lexer moves forward only and counts lines upward. It returns nothing only at the end of the input. A token lies between the start and the new position |
| SqlLexer.NextTokenStep | TPC4/main.py:50-58 | the lexer skips ignored characters, counts newline runs, reports then skips unexpected characters, and stops at the first match |
| SqlLexer.NextTokenMeaning | TPC4/main.py:50-52 | the line number after a call is the start line plus the newlines consumed, and a token's line is the start line plus the newlines before it |
| SqlLexer.SkippedMeaning | TPC4/main.py:54-58 | skipping a blank or an unexpected character keeps the line count right |
| SqlLexer.NewlinesMeaning | TPC4/main.py:50-52 | skipping a newline run raises the line count by exactly the newlines passed |
| SqlLexer.Search | TPC4/main.py:50-58 | the loop that finds the next token gives what `NextToken` gives |
| SqlLexer.TokensFrom | TPC4/main.py:65-67 | every token of the rest of the input lies within it and is never `COMMAND` |
| SqlLexer.TokensFromStep | TPC4/main.py:65-67 | iterating the lexer is one `token()` call followed by the rest |
| SqlLexer.TokensFromCountLines | TPC4/main.py:50-52 | the final line number is the start line plus the input's newlines, and each token's line counts the newlines before it |
| SqlLexer.Lexer.constructor | TPC4/main.py:61 | a new lexer has no input, is at position 0, is on line 1 and has reported nothing |
| SqlLexer.Lexer.Input | TPC4/main.py:64 | new input restarts the position, but the line count carries over |
| SqlLexer.Lexer.Token | TPC4/main.py:65-66 | one `token()` call returns what `NextToken` returns and moves the position and line count as it says |
| SqlLexer.Lexer.Remaining | TPC4/main.py:65-67 | iterating the lexer yields the tokens of `TokensFrom` |
| SqlLexer.LexLines | TPC4/main.py:60-67 | lexing all input lines never yields `COMMAND` and keeps the line number at least 1 |
| SqlLexer.LexLinesCountLines | TPC4/main.py:60-67 | after all lines, the line number is 1 plus the number of newlines read, carried across lines |
| SqlLexer.LexAll | TPC4/main.py:60-67 | the main loop produces the tokens and reports that `LexLines` specifies |
| SqlLexer.ScanWord | TPC4/main.py:31-35 | a letter word followed by a non-word character is read whole and classified |
| SqlLexer.GluedWordIsRejected | TPC4/main.py:32 | in `ab1` the letters lack a boundary and are reported one by one; then `1` is a number |
| SqlLexer.ScanInteger | TPC4/main.py:41-44 | a written natural number is read back as that integer |
| SqlLexer.ScanDecimal | TPC4/main.py:41-44 | digits, a dot and digits are read as that decimal, exactly |
| SqlLexer.ScanComparison | TPC4/main.py:47 | `>=` and `<=` are read as two-character operators |
| SqlLexer.NewlinesAreCounted | TPC4/main.py:50-52 | k newlines raise the line count by k and yield no token |
| SqlLexer.UnexpectedIsSkipped | TPC4/main.py:56-58 | an unexpected character is reported, and lexing continues right after it |
| Athletes.Split | TPC1/main.py:33 | splitting always yields at least one field, and no field contains the separator |
| Athletes.JoinSplit | TPC1/main.py:33 | the fields joined with the separator give back the line |
| Athletes.SplitCount | TPC1/main.py:33 | there is one more field than there are separators |
| Athletes.SplitJoin | TPC1/main.py:33 | separator-free fields joined and split again come back unchanged |
| Athletes.ParseInt | TPC1/main.py:37 | `int()` fails only with a `ValueError` |
| Athletes.ParseIntRoundTrip | TPC1/main.py:37 | `int(str(n)) == n` for every integer |
| Athletes.ParseIntIgnoresBlanks | TPC1/main.py:37 | `int()` ignores any surrounding whitespace: stripped text with any whitespace before and after reads as the text alone |
| Athletes.Bucket | TPC1/main.py:38 | the age group starts at a multiple of 5, spans 5 years and holds the age (Python's floored `%`, so negative ages too) |
| Athletes.BucketIsUnique | TPC1/main.py:38 | it is the only five-year group aligned on a multiple of 5 that holds the age |
| Athletes.ParseRecord | TPC1/main.py:33-37 | a line fails with `IndexError` if and only if it has at most 12 columns, and with `ValueError` if and only if it has more but column 5 is not an integer |
| Athletes.RecordOfColumns | TPC1/main.py:33-38 | a line with more than 12 columns yields column 8 as the modality. The result is whether column 12 lower-cases to `true`. The age is column 5 read as an integer |
| Athletes.ShortRecordIsAnIndexError | TPC1/main.py:33-35 | a line with at most 12 columns fails with an `IndexError` |
| Athletes.ResultIgnoresCase | TPC1/main.py:35 | `True` and `TRUE` count as fit; `yes` does not |
| Athletes.Records | TPC1/main.py:32-37 | when every line parses there is one record per line |
| Athletes.RecordOfLine | TPC1/main.py:32-37 | the i-th record is the parse of the i-th line |
| Athletes.RecordsStopAtError | TPC1/main.py:32-37 | once a line has failed, the lines after it do not matter |
| Athletes.RecordsFailAtFirstError | TPC1/main.py:32-37 | a failure is the error of some line, and every line before that one parses |
| Athletes.RecordsFailIffSomeLineFails | TPC1/main.py:32-37 | reading the lines fails if and only if some line cannot be read |
| Athletes.RecordsStep | TPC1/main.py:32-37 | reading one more line appends its record, or ends the reading with its error |
| Athletes.CollectStep | TPC1/main.py:32-37 | one more parsed line appends its record, or its error ends the collection |
| Athletes.TallyOfRecords | TPC1/main.py:32-39 | the modality and result lists have one entry per record |
| Athletes.Add | TPC1/main.py:34-39 | one more record adds one sport and one result, adds exactly one to the histogram's sum, and never removes or lowers a group |
| Athletes.TallyStep | TPC1/main.py:34-39 | counting one more record is one pass of the loop body over the tally so far |
| Athletes.TotalIncrement | TPC1/main.py:39 | `get(g, 0) + 1` adds exactly one to the sum of the histogram |
| Athletes.TallyEntries | TPC1/main.py:34-39 | the i-th modality and result are the i-th record's, and its age group is a key of the histogram |
| Athletes.DistributionCounts | TPC1/main.py:39 | each group's count is the number of records whose age falls in it; a group with none is absent |
| Athletes.TallyGroupsWellFormed | TPC1/main.py:38-39 | every histogram key is an aligned five-year group |
| Athletes.DistributionTotal | TPC1/main.py:39 | the histogram's counts add up to the number of records |
| Athletes.Aggregate | TPC1/main.py:26-39 | the loop builds the lists and histogram `TallyOf` specifies, or fails with the error of the first bad line |
| Athletes.PassedAndFailed | TPC1/main.py:47-52 | fit plus unfit is the total |
| Athletes.Dedup | TPC1/main.py:22-24 | the result has no duplicates and only elements of the input |
| Athletes.DedupKeepsAll | TPC1/main.py:22-24 | every element of the input is kept |
| Athletes.BelowTotal | TPC1/main.py:41 | Python's string order relates any two strings |
| Athletes.BelowTransitive | TPC1/main.py:41 | Python's string order is transitive |
| Athletes.BelowAntisymmetric | TPC1/main.py:41 | Python's string order is antisymmetric |
| Athletes.Sort | TPC1/main.py:41 | `sorted` returns an ordered permutation of its input |
| Athletes.Insert | TPC1/main.py:41 | inserting into a sorted list keeps it sorted and adds exactly that element |
| Athletes.ModalityList | TPC1/main.py:41 | the modality list is sorted, has no duplicates and holds only modalities read |
| Athletes.ModalityListHasAll | TPC1/main.py:41 | every modality read is listed |
| Athletes.ModalitiesOfRecords | TPC1/main.py:34-41 | the printed sports are exactly the sports of the records, in both directions |
| Athletes.SortedIsUnique | TPC1/main.py:41 | two sorted duplicate-free lists of the same elements are equal, so the order `set()` happens to give cannot change the output |
| Athletes.GroupsInOrder | TPC1/main.py:56-57 | the histogram is printed once per key, with its count, in ascending tuple order |
| Athletes.GroupsInOrderListsAll | TPC1/main.py:56-57 | every age group of the histogram is printed |
| Athletes.DataLines | TPC1/main.py:16-17 | the header line is skipped and every other line is kept in order |
| Athletes.SummaryOfFacts | TPC1/main.py:41-57 | the printed sports are sorted, distinct and exactly the sports of the records. The fit athletes are at most the total, and the total is the number of records. Total minus fit is the unfit count. The age groups add up to the total |
| Athletes.SummaryOf | TPC1/main.py:41-57 | the fit athletes are at most the total, which is the number of records |
| Athletes.Summarize | TPC1/main.py:16-57 | a file fails if and only if one of its data lines cannot be read; otherwise the total is its number of data lines |
| Athletes.RecordOfData | TPC1/main.py:33-38 | a line read as a record holds its column-8 sport, whether its column 12 lower-cases to `true`, and the age group of its column 5 |
| Athletes.RecordsReadAs | TPC1/main.py:32-38 | every record read holds the sport, result and age group of its own line |
| Athletes.FitCount | TPC1/main.py:47 | the number of true results is the number of lines whose column 12 lower-cases to `true` |
| Athletes.GroupCountOfLines | TPC1/main.py:38-39 | the records in an age group are as many as the lines whose column-5 age falls in it |
| Athletes.SportsOfLines | TPC1/main.py:34-41 | the printed sports are exactly the column-8 values of the lines |
| Athletes.GroupsOfLines | TPC1/main.py:38-57 | each printed age group counts the lines whose age falls in it, at least one, and the group of every line is printed |
| Athletes.SummaryFacts | TPC1/main.py:16-57 | for a file that is read to the end: one athlete per data line; the fit athletes are the data lines whose column 12 lower-cases to `true`; the printed sports are exactly the column-8 values; each printed age group counts the data lines whose column-5 age falls in it, and every data line's group is printed |

## Where the model follows the code

- The coin-entry `EXIT` (TPC5/main.py:83-86) only prints the amount and
  returns to `INITIAL`.
- The session `EXIT` (TPC5/main.py:126-133) prints the change and sets the
  exit flag, and leaves the amount as it was
  (`VendingMachine.ScenarioChange`).
- After the session `EXIT`, the rest of the same input line is still
  lexed. The session stops only before the next line (TPC5/main.py:139-146).
- `LIST` and the session `EXIT` are rules of `INITIAL` only, because the
  other two states are exclusive. Inside `INSERTCOINS`, `LIST` is illegal
  text.
- The Markdown converter (`Markdown.Convert`) writes the list tags in the
  order the code writes them. The corrected order is kept beside it
  (`Markdown.Wrapping`), with the lemmas that relate the two; see
  "## Findings".

## Left out

- Money is modelled in integer cents. The float arithmetic of TPC5, and the
  drift it can cause in `//` and `%` during change, are not modelled.
- Reading `produtos.json`, the `input(">>> ")` prompt, and the exact
  printed text are not modelled. Printed messages are a datatype, and
  `pretty_print_change` is not modelled.
- The command-line wiring of `ply.lex` is not modelled. The lexers are
  written out directly from their rules, ignore sets and error handlers.
- The machine's `Produto` objects are kept as values in a sequence, so the
  aliasing of the objects stored in the catalogue list is not modelled.
- Input is taken as whole strings or as lines. Reading standard input and
  files is not modelled, nor is the missing-file exit of TPC1's
  `read_dataset`.
- Character classes and case conversion are ASCII only. `\d`,
  `str.isdigit`, `\w` and `str.lower` on other Unicode characters are not
  modelled, and `str.isspace` is modelled by its fixed character set.
- Common.Lower: only ASCII letters are lowered. This is enough for the
  comparison with `true` and for the reserved words, but not for every
  Unicode letter.
- Athletes.ParseInt: only ASCII digits are accepted; Python's `int()` also
  accepts other Unicode decimal digits.
- SqlLexer.Scan: a decimal number is kept as an exact value, not as the
  binary `float` that `float()` produces.
- Calculator.NextToken: the sign of `INT` and the `UNKNOWN` pattern are
  modelled, but the fact that `re` in `str` mode treats non-ASCII digits as
  `\d` is not.
- TPC1's percentages are not modelled: they are floating point, and they
  divide by zero on an empty file. The counts they are computed from are
  modelled.
- TPC1's `dedup_list` goes through a Python `set`, whose order is not
  specified. `Athletes.Dedup` keeps first occurrences instead, and
  `Athletes.SortedIsUnique` shows that the sorted result does not depend
  on that order.
- The `ArgsType` dispatch of TPC2 (TPC2/main.py:97-123) is folded into one
  emitter per recogniser.
- The error messages written to standard error by TPC4 are modelled as the
  list of reported characters.
- `Calculator.IntValue` reads any non-`INT` text as 0. That case never
  occurs, because `Calculator.NextTokenIntText` shows that `INT` tokens
  always carry digits.

## Findings

| source | as written | input that shows it | evidently intended | confidence | as-written member | corrected member |
|---|---|---|---|---|---|---|
| TPC2/main.py:133-136 | when a list item of the other type arrives, the end tag of the old list is prepended first and the start tag of the new list after it, so the start tag ends up first | the lines `- a` then `1. b` give `<ul><li>a</li><ol></ul><li>b</li>` | close the open list, then open the new one: `<ul><li>a</li></ul><ol><li>b</li>` | not executed | Markdown.DocumentSwitchAsWritten | Markdown.ListSwitch |
