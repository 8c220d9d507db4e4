/** The lexer of the small SQL-like query language: alphabetic words
    classified against the reserved keywords, numbers, arithmetic and
    comparison operators, the two delimiters, newline counting, ignored
    blanks and the error rule that reports a character and skips it.

    The rules form one alternation tried at the cursor in the order the
    lexer builder gives them: the handler functions in the order of their
    definitions (COMMAND, NUMBER, MATH_OPERATOR, newline), then the plain
    string rules (DELIMITER, FINAL_DELIMITER). The ignored characters are
    checked before any rule. */
module SqlLexer {
  import opened Common

  /** The reserved words, by their lower-case spelling, with the token type
      each one gets. */
  const Reserved: map<string, string> := map[
    "select" := "SELECT", "from" := "FROM", "where" := "WHERE", "and" := "AND",
    "or" := "OR", "like" := "LIKE", "inner" := "INNER", "outer" := "OUTER",
    "left" := "LEFT", "right" := "RIGHT", "full" := "FULL", "on" := "ON"]

  /** The token types: the six declared ones and one per reserved word. */
  datatype Kind = Field | Command | Delimiter | FinalDelimiter | Number | MathOperator | Keyword(name: string)

  /** The value a token carries: its text, or the number a NUMBER reads as.
      A decimal is kept exactly, as `units / 10^scale`. */
  datatype Value = Text(text: string) | Integer(n: nat) | Decimal(units: nat, scale: nat)

  /** A token as the lexer hands it out: type, value, line number and the
      offset of its first character in the current input. */
  datatype LexToken = LexToken(kind: Kind, value: Value, lineno: nat, lexpos: nat)

  // ---------------------------------------------------------------------
  // Classifying words (`t_COMMAND`)
  // ---------------------------------------------------------------------

  /** The type of a word: the reserved type of its lower-case form, FIELD
      for any other word. */
  function Classify(word: string): (k: Kind)
    ensures k == Field || k.Keyword?
  {
    var lower := Lower(word);
    if lower in Reserved then Keyword(Reserved[lower]) else Field
  }

  predicate IsLowerWord(w: string) {
    forall i :: 0 <= i < |w| ==> 'a' <= w[i] <= 'z'
  }

  /** The keys are lower-case words, so every one of them is reachable
      through the lower-case form of a word. */
  lemma {:induction false} ReservedWordsAreLowerCase()
    ensures forall w :: w in Reserved ==> IsLowerWord(w) && w != []
  {
  }

  lemma {:induction false} LowerSpells(word: string, lower: string)
    requires |word| == |lower| && forall i :: 0 <= i < |word| ==> ToLower(word[i]) == lower[i]
    ensures Lower(word) == lower
  {
  }

  /** A reserved word written in any mix of cases gets its keyword type. */
  lemma {:induction false} ReservedWordInAnyCase(word: string, key: string)
    requires key in Reserved
    requires |word| == |key| && forall i :: 0 <= i < |word| ==> ToLower(word[i]) == key[i]
    ensures Classify(word) == Keyword(Reserved[key])
  {
    LowerSpells(word, key);
  }

  /** A keyword in mixed case, and a word that is not reserved. */
  lemma {:induction false} ClassifyKeyword()
    ensures Classify("SeLeCt") == Keyword("SELECT")
  {
    LowerSpells("SeLeCt", "select");
  }

  lemma {:induction false} ClassifyField()
    ensures Classify("Name") == Field
  {
    LowerSpells("Name", "name");
  }

  /** Classification ignores case: two words that differ only in the case
      of their letters get the same type. */
  lemma {:induction false} ClassifyIgnoresCase(a: string, b: string)
    requires |a| == |b| && forall i :: 0 <= i < |a| ==> ToLower(a[i]) == ToLower(b[i])
    ensures Classify(a) == Classify(b)
  {
    assert Lower(a) == Lower(b);
  }

  // ---------------------------------------------------------------------
  // The patterns, each as the length it matches at the cursor (0: none)
  // ---------------------------------------------------------------------

  /** The characters of `\w` this model knows: ASCII letters and digits and
      the underscore. */
  predicate IsWordChar(c: char) {
    IsAsciiLetter(c) || IsDigit(c) || c == '_'
  }

  /** `\b` between `pos - 1` and `pos`: exactly one side is a word character. */
  predicate Boundary(data: string, pos: nat)
    requires pos <= |data|
  {
    (pos > 0 && IsWordChar(data[pos - 1])) != (pos < |data| && IsWordChar(data[pos]))
  }

  function LettersFrom(s: string, i: nat): (n: nat)
    requires i <= |s|
    ensures i + n <= |s|
    decreases |s| - i
  {
    if i < |s| && IsAsciiLetter(s[i]) then 1 + LettersFrom(s, i + 1) else 0
  }

  lemma {:induction false} LettersFromMeaning(s: string, i: nat)
    requires i <= |s|
    ensures var n := LettersFrom(s, i);
      (forall k :: i <= k < i + n ==> IsAsciiLetter(s[k])) && (i + n == |s| || !IsAsciiLetter(s[i + n]))
    decreases |s| - i
  {
    if i < |s| && IsAsciiLetter(s[i]) {
      LettersFromMeaning(s, i + 1);
    }
  }

  /** `\b[a-zA-Z]+\b`: the whole run of letters at the cursor, when a word
      boundary stands before it and after it; otherwise nothing, since a
      shorter run ends between two letters. */
  function WordLength(data: string, pos: nat): (n: nat)
    requires pos <= |data|
    ensures pos + n <= |data|
  {
    var n := LettersFrom(data, pos);
    if n > 0 && Boundary(data, pos) && Boundary(data, pos + n) then n else 0
  }

  /** `[0-9]+(\.[0-9]+)?`: the digits at the cursor, with the fraction
      when a point and at least one digit follow them. */
  function NumberLength(data: string, pos: nat): (n: nat)
    requires pos <= |data|
    ensures pos + n <= |data|
  {
    var whole := DigitsFrom(data, pos);
    if whole == 0 then 0
    else if pos + whole + 1 < |data| && data[pos + whole] == '.' && IsDigit(data[pos + whole + 1]) then
      whole + 1 + DigitsFrom(data, pos + whole + 1)
    else whole
  }

  /** The alternatives of the operator pattern, in their order. */
  const Operators: seq<string> := [">=", "<=", "+", "-", "*", ">", "<", "="]

  predicate StartsAt(data: string, pos: nat, w: string) {
    pos + |w| <= |data| && data[pos..pos + |w|] == w
  }

  /** `>=|<=|\+|-|\*|>|<|=`: the two-character comparisons come first, so
      they win over their one-character prefixes. */
  function OperatorLength(data: string, pos: nat): (n: nat)
    requires pos < |data|
    ensures pos + n <= |data|
  {
    var c := data[pos];
    if (c == '>' || c == '<') && pos + 1 < |data| && data[pos + 1] == '=' then 2
    else if c in "+-*><=" then 1
    else 0
  }

  /** `\n+`: the run of newlines at the cursor. */
  function NewlinesFrom(s: string, i: nat): (n: nat)
    requires i <= |s|
    ensures i + n <= |s|
    decreases |s| - i
  {
    if i < |s| && s[i] == '\n' then 1 + NewlinesFrom(s, i + 1) else 0
  }

  lemma {:induction false} NewlinesFromMeaning(s: string, i: nat)
    requires i <= |s|
    ensures var n := NewlinesFrom(s, i);
      (forall k :: i <= k < i + n ==> s[k] == '\n') && (i + n == |s| || s[i + n] != '\n')
    decreases |s| - i
  {
    if i < |s| && s[i] == '\n' {
      NewlinesFromMeaning(s, i + 1);
    }
  }

  /** What `t_NUMBER` makes of the matched text: an integer without a
      point, an exact decimal with one. */
  function NumberValue(data: string, pos: nat, n: nat): (r: Value)
    requires pos <= |data| && 0 < n == NumberLength(data, pos)
    ensures !r.Text?
    ensures r.Integer? <==> n == DigitsFrom(data, pos)
    ensures r.Decimal? ==> DigitsFrom(data, pos) + 1 + r.scale == n
  {
    var whole := DigitsFrom(data, pos);
    DigitsFromMeaning(data, pos);
    if n == whole then Integer(DigitsValue(data[pos..pos + whole]))
    else
      DigitsFromMeaning(data, pos + whole + 1);
      var digits := data[pos..pos + whole] + data[pos + whole + 1..pos + n];
      assert AllDigits(digits) by {
        forall k | 0 <= k < |digits| ensures IsDigit(digits[k]) {
          if k < whole {
            assert digits[k] == data[pos + k];
          } else {
            assert digits[k] == data[pos + k + 1];
          }
        }
      }
      Decimal(DigitsValue(digits), n - whole - 1)
  }

  // ---------------------------------------------------------------------
  // One step at the cursor
  // ---------------------------------------------------------------------

  /** The outcome of one step of the lexer at the cursor. */
  datatype Lexeme =
    | Ignored                                         // a blank of `t_ignore`
    | Newlines(count: nat)                            // `t_newline`: no token
    | Matched(kind: Kind, value: Value, length: nat)  // a token of `length` characters
    | Unexpected(c: char)                             // `t_error`

  /** One step at `pos`: a blank is ignored; otherwise the first rule that
      matches decides; a character no rule matches is unexpected. */
  function Scan(data: string, pos: nat): (r: Lexeme)
    requires pos < |data|
    ensures r.Ignored? <==> data[pos] == ' ' || data[pos] == '\t'
    ensures r.Newlines? ==> data[pos] == '\n' && r.count == NewlinesFrom(data, pos) > 0
    ensures r.Matched? ==> 0 < r.length && pos + r.length <= |data| && r.kind != Command
    ensures r.Unexpected? ==> r.c == data[pos] && r.c !in " \t\n,;+-*<>=" && !IsDigit(r.c)
  {
    var c := data[pos];
    if c == ' ' || c == '\t' then Ignored
    else
      var word := WordLength(data, pos);
      if word > 0 then
        var text := data[pos..pos + word];
        Matched(Classify(text), Text(text), word)
      else
        var number := NumberLength(data, pos);
        if number > 0 then Matched(Number, NumberValue(data, pos, number), number)
        else
          var operator := OperatorLength(data, pos);
          if operator > 0 then Matched(MathOperator, Text(data[pos..pos + operator]), operator)
          else
            var newlines := NewlinesFrom(data, pos);
            if newlines > 0 then Newlines(newlines)
            else if c == ',' then Matched(Delimiter, Text([c]), 1)
            else if c == ';' then Matched(FinalDelimiter, Text([c]), 1)
            else Unexpected(c)
  }

  /** The word rule matches exactly a maximal run of letters with a word
      boundary on each side. */
  lemma {:induction false} WordLengthMeaning(data: string, pos: nat)
    requires pos <= |data|
    ensures var n := WordLength(data, pos);
      n > 0 ==> (forall k :: pos <= k < pos + n ==> IsAsciiLetter(data[k]))
                && (pos == 0 || !IsWordChar(data[pos - 1]))
                && (pos + n == |data| || !IsWordChar(data[pos + n]))
  {
    LettersFromMeaning(data, pos);
  }

  /** No other length fits `\b[a-zA-Z]+\b` at the cursor: letters with a
      boundary on each side are what the word rule takes. */
  lemma {:induction false} WordIsTheOnlyMatch(data: string, pos: nat, m: nat)
    requires 0 < m && pos + m <= |data|
    requires forall k :: pos <= k < pos + m ==> IsAsciiLetter(data[k])
    requires Boundary(data, pos) && Boundary(data, pos + m)
    ensures WordLength(data, pos) == m
  {
    LettersFromRun(data, pos, pos + m);
  }

  /** The letters counted from `i` are exactly those up to `m` when `m` ends
      the run. */
  lemma {:induction false} LettersFromRun(s: string, i: nat, m: nat)
    requires i <= m <= |s|
    requires forall k :: i <= k < m ==> IsAsciiLetter(s[k])
    requires m == |s| || !IsAsciiLetter(s[m])
    ensures LettersFrom(s, i) == m - i
    decreases m - i
  {
    if i < m {
      LettersFromRun(s, i + 1, m);
    }
  }

  /** A NUMBER is a run of digits, or two runs of digits around a point;
      it is an integer exactly when it has no point, and neither a further
      digit nor a point with a digit after it is left behind. */
  lemma {:induction false} NumberLengthMeaning(data: string, pos: nat)
    requires pos <= |data|
    ensures var n, whole := NumberLength(data, pos), DigitsFrom(data, pos);
      && (n > 0 <==> pos < |data| && IsDigit(data[pos]))
      && (n > 0 ==> forall k :: pos <= k < pos + whole ==> IsDigit(data[k]))
      && (n > 0 && n == whole ==>
            pos + n == |data| || (!IsDigit(data[pos + n])
              && !(data[pos + n] == '.' && pos + n + 1 < |data| && IsDigit(data[pos + n + 1]))))
      && (n > whole ==>
            && data[pos + whole] == '.' && whole + 1 < n
            && (forall k :: pos + whole < k < pos + n ==> IsDigit(data[k]))
            && (pos + n == |data| || !IsDigit(data[pos + n])))
  {
    DigitsFromMeaning(data, pos);
    var whole := DigitsFrom(data, pos);
    if NumberLength(data, pos) > whole {
      DigitsFromMeaning(data, pos + whole + 1);
    }
  }

  lemma {:induction false} StartsAtChars(data: string, pos: nat, w: string)
    ensures StartsAt(data, pos, w) <==> pos + |w| <= |data| && forall k :: 0 <= k < |w| ==> data[pos + k] == w[k]
  {
    if pos + |w| <= |data| && forall k :: 0 <= k < |w| ==> data[pos + k] == w[k] {
      assert data[pos..pos + |w|] == w;
    }
  }

  /** The operator rule takes the first alternative that starts at the
      cursor ... */
  lemma {:induction false} OperatorIsFirstAlternative(data: string, pos: nat, i: nat)
    requires pos < |data| && i < |Operators|
    requires StartsAt(data, pos, Operators[i])
    requires forall j :: 0 <= j < i ==> !StartsAt(data, pos, Operators[j])
    ensures OperatorLength(data, pos) == |Operators[i]|
  {
    StartsAtChars(data, pos, Operators[i]);
    if i >= 1 {
      StartsAtChars(data, pos, Operators[0]);
    }
    if i >= 2 {
      StartsAtChars(data, pos, Operators[1]);
    }
  }

  /** The first alternative is also the longest one that starts at the
      cursor: `>=` and `<=` are never split. */
  lemma {:induction false} OperatorIsLongest(data: string, pos: nat, op: string)
    requires pos < |data| && op in Operators && StartsAt(data, pos, op)
    ensures |op| <= OperatorLength(data, pos)
  {
    var c := data[pos];
    if pos + 1 < |data| {
      assert data[pos..pos + 2] == [c, data[pos + 1]];
    }
    assert data[pos..pos + 1] == [c];
  }

  /** What the operator rule matches is always one of the alternatives. */
  lemma {:induction false} OperatorMatchIsAlternative(data: string, pos: nat)
    requires pos < |data| && OperatorLength(data, pos) > 0
    ensures data[pos..pos + OperatorLength(data, pos)] in Operators
  {
    var c := data[pos];
    if pos + 1 < |data| {
      assert data[pos..pos + 2] == [c, data[pos + 1]];
    }
    assert data[pos..pos + 1] == [c];
  }

  /** The rules start on different characters, so at most one of them
      matches at any cursor and their order decides nothing. */
  lemma {:induction false} RulesAreDisjoint(data: string, pos: nat)
    requires pos < |data|
    ensures WordLength(data, pos) > 0 ==> IsAsciiLetter(data[pos])
    ensures NumberLength(data, pos) > 0 ==> IsDigit(data[pos])
    ensures OperatorLength(data, pos) > 0 ==> data[pos] in "+-*><="
    ensures NewlinesFrom(data, pos) > 0 ==> data[pos] == '\n'
  {
  }

  /** A token's text never holds a newline. */
  lemma {:induction false} MatchedHasNoNewline(data: string, pos: nat)
    requires pos < |data| && Scan(data, pos).Matched?
    ensures '\n' !in data[pos..pos + Scan(data, pos).length]
  {
    var n := Scan(data, pos).length;
    var text := data[pos..pos + n];
    var c := data[pos];
    if c == ' ' || c == '\t' {
    } else if WordLength(data, pos) > 0 {
      WordLengthMeaning(data, pos);
      assert forall k :: 0 <= k < |text| ==> IsAsciiLetter(text[k]);
    } else if NumberLength(data, pos) > 0 {
      NumberLengthMeaning(data, pos);
      assert forall k :: 0 <= k < |text| ==> text[k] == data[pos + k];
    } else {
      assert text == [c] || (n == 2 && text == [c, data[pos + 1]]);
    }
  }

  // ---------------------------------------------------------------------
  // The lexer's token loop
  // ---------------------------------------------------------------------

  /** What a request for the next token does: the token (none once the
      input is used up), the new cursor and line number, and the
      characters reported as unexpected on the way. */
  datatype Next = Next(token: Option<LexToken>, pos: nat, lineno: nat, reported: string)

  /** The next token from `pos`: blanks are skipped, a newline run raises
      the line number by its length, an unexpected character is reported
      and skipped, and the first match ends the search. */
  function NextToken(data: string, pos: nat, lineno: nat): (r: Next)
    requires pos <= |data|
    ensures pos <= r.pos <= |data| && lineno <= r.lineno
    ensures r.token.None? ==> r.pos == |data|
    ensures r.token.Some? ==> pos <= r.token.value.lexpos < r.pos && r.token.value.kind != Command
    decreases |data| - pos
  {
    if pos == |data| then Next(None, pos, lineno, [])
    else match Scan(data, pos)
      case Ignored => NextToken(data, pos + 1, lineno)
      case Newlines(n) => NextToken(data, pos + n, lineno + n)
      case Unexpected(c) =>
        var r := NextToken(data, pos + 1, lineno);
        r.(reported := [c] + r.reported)
      case Matched(kind, value, n) => Next(Some(LexToken(kind, value, lineno, pos)), pos + n, lineno, [])
  }

  /** One step of the search for the next token, case by case. */
  lemma {:induction false} NextTokenStep(data: string, pos: nat, lineno: nat)
    requires pos < |data|
    ensures var r, s := NextToken(data, pos, lineno), Scan(data, pos);
      && (s.Ignored? ==> r == NextToken(data, pos + 1, lineno))
      && (s.Newlines? ==> r == NextToken(data, pos + s.count, lineno + s.count))
      && (s.Unexpected? ==> r == NextToken(data, pos + 1, lineno).(reported := [s.c] + NextToken(data, pos + 1, lineno).reported))
      && (s.Matched? ==> r == Next(Some(LexToken(s.kind, s.value, lineno, pos)), pos + s.length, lineno, []))
  {
  }

  lemma {:induction false} CountSplit(s: string, i: nat, j: nat, k: nat)
    requires i <= j <= k <= |s|
    ensures Count(s[i..k], '\n') == Count(s[i..j], '\n') + Count(s[j..k], '\n')
  {
    assert s[i..k] == s[i..j] + s[j..k];
    CountAppend(s[i..j], s[j..k], '\n');
  }

  /** Skipping one character that is not a newline passes no newline. */
  lemma {:induction false} SkipOne(data: string, pos: nat, q: nat)
    requires pos < q <= |data| && data[pos] != '\n'
    ensures Count(data[pos..q], '\n') == Count(data[pos + 1..q], '\n')
  {
    CountSplit(data, pos, pos + 1, q);
    assert data[pos..pos + 1] == [data[pos]];
    CountNone(data[pos..pos + 1], '\n');
  }

  /** Skipping a newline run passes as many newlines as it is long. */
  lemma {:induction false} SkipNewlines(data: string, pos: nat, q: nat)
    requires pos <= |data| && pos + NewlinesFrom(data, pos) <= q <= |data|
    ensures Count(data[pos..q], '\n') == NewlinesFrom(data, pos) + Count(data[pos + NewlinesFrom(data, pos)..q], '\n')
  {
    var n := NewlinesFrom(data, pos);
    NewlinesFromMeaning(data, pos);
    CountAll(data[pos..pos + n], '\n');
    CountSplit(data, pos, pos + n, q);
  }

  /** What a request for the next token from `pos` keeps: the line number
      after it counts the newlines passed, and the token found is the match
      that starts at its own offset, carries that line number and holds no
      newline. */
  predicate CountsLines(data: string, pos: nat, lineno: nat)
    requires pos <= |data|
  {
    var r := NextToken(data, pos, lineno);
    && r.lineno == lineno + Count(data[pos..r.pos], '\n')
    && (r.token.Some? ==>
          var t := r.token.value;
          && Scan(data, t.lexpos) == Matched(t.kind, t.value, r.pos - t.lexpos)
          && t.lineno == r.lineno && '\n' !in data[t.lexpos..r.pos])
  }

  lemma {:induction false} NextTokenMeaning(data: string, pos: nat, lineno: nat)
    requires pos <= |data|
    ensures CountsLines(data, pos, lineno)
    decreases |data| - pos, 1
  {
    if pos == |data| {
      assert data[pos..pos] == [];
    } else {
      match Scan(data, pos)
      case Ignored => SkippedMeaning(data, pos, lineno);
      case Newlines(_) => NewlinesMeaning(data, pos, lineno);
      case Unexpected(_) => SkippedMeaning(data, pos, lineno);
      case Matched(_, _, _) => MatchedStep(data, pos, lineno);
    }
  }

  /** A skipped blank or an unexpected character passes no newline. */
  lemma {:induction false} SkippedMeaning(data: string, pos: nat, lineno: nat)
    requires pos < |data| && (Scan(data, pos).Ignored? || Scan(data, pos).Unexpected?)
    ensures CountsLines(data, pos, lineno)
    decreases |data| - pos, 0
  {
    NextTokenMeaning(data, pos + 1, lineno);
    SkipStep(data, pos, lineno);
  }

  /** A newline run raises the line number by the newlines it passes. */
  lemma {:induction false} NewlinesMeaning(data: string, pos: nat, lineno: nat)
    requires pos < |data| && Scan(data, pos).Newlines?
    ensures CountsLines(data, pos, lineno)
    decreases |data| - pos, 0
  {
    var n := Scan(data, pos).count;
    NextTokenMeaning(data, pos + n, lineno + n);
    NewlinesStep(data, pos, lineno);
  }

  lemma {:induction false} SkipStep(data: string, pos: nat, lineno: nat)
    requires pos < |data| && (Scan(data, pos).Ignored? || Scan(data, pos).Unexpected?)
    requires CountsLines(data, pos + 1, lineno)
    ensures CountsLines(data, pos, lineno)
  {
    SkipOne(data, pos, NextToken(data, pos, lineno).pos);
  }

  lemma {:induction false} NewlinesStep(data: string, pos: nat, lineno: nat)
    requires pos < |data| && Scan(data, pos).Newlines?
    requires CountsLines(data, pos + Scan(data, pos).count, lineno + Scan(data, pos).count)
    ensures CountsLines(data, pos, lineno)
  {
    SkipNewlines(data, pos, NextToken(data, pos, lineno).pos);
  }

  lemma {:induction false} MatchedStep(data: string, pos: nat, lineno: nat)
    requires pos < |data| && Scan(data, pos).Matched?
    ensures CountsLines(data, pos, lineno)
  {
    MatchedHasNoNewline(data, pos);
    CountNone(data[pos..pos + Scan(data, pos).length], '\n');
  }

  /** The search from `pos` on, with `errors` already reported, still
      ends as `goal` does. */
  ghost predicate Agrees(data: string, pos: nat, line: nat, errors: string, goal: Next)
    requires pos <= |data|
  {
    var rest := NextToken(data, pos, line);
    rest.token == goal.token && rest.pos == goal.pos && rest.lineno == goal.lineno
    && errors + rest.reported == goal.reported
  }

  lemma {:induction false} IgnoredAgrees(data: string, pos: nat, line: nat, errors: string, goal: Next)
    requires pos < |data| && Scan(data, pos).Ignored? && Agrees(data, pos, line, errors, goal)
    ensures Agrees(data, pos + 1, line, errors, goal)
  {
    NextTokenStep(data, pos, line);
  }

  lemma {:induction false} NewlinesAgree(data: string, pos: nat, line: nat, errors: string, goal: Next)
    requires pos < |data| && Scan(data, pos).Newlines? && Agrees(data, pos, line, errors, goal)
    ensures pos + Scan(data, pos).count <= |data|
    ensures Agrees(data, pos + Scan(data, pos).count, line + Scan(data, pos).count, errors, goal)
  {
    NextTokenStep(data, pos, line);
  }

  lemma {:induction false} UnexpectedAgrees(data: string, pos: nat, line: nat, errors: string, goal: Next)
    requires pos < |data| && Scan(data, pos).Unexpected? && Agrees(data, pos, line, errors, goal)
    ensures Agrees(data, pos + 1, line, errors + [data[pos]], goal)
  {
    NextTokenStep(data, pos, line);
    var after := NextToken(data, pos + 1, line).reported;
    assert errors + ([data[pos]] + after) == errors + [data[pos]] + after;
  }

  lemma {:induction false} MatchedAgrees(data: string, pos: nat, line: nat, errors: string, goal: Next)
    requires pos < |data| && Scan(data, pos).Matched? && Agrees(data, pos, line, errors, goal)
    ensures var s := Scan(data, pos);
      goal == Next(Some(LexToken(s.kind, s.value, line, pos)), pos + s.length, line, errors)
  {
    NextTokenStep(data, pos, line);
  }

  /** The scanning loop of a request for the next token: blanks are
      skipped, `t_newline` raises the line number, `t_error` reports the
      character and skips it, and the first match is returned. */
  method Search(data: string, start: nat, lineno: nat) returns (t: Option<LexToken>, pos: nat, line: nat, errors: string)
    requires start <= |data|
    ensures NextToken(data, start, lineno) == Next(t, pos, line, errors)
  {
    ghost var goal := NextToken(data, start, lineno);
    pos, line, errors := start, lineno, [];
    while pos < |data|
      invariant pos <= |data| && Agrees(data, pos, line, errors, goal)
      decreases |data| - pos
    {
      var lexeme := Scan(data, pos);
      if lexeme.Ignored? {
        IgnoredAgrees(data, pos, line, errors, goal);
        pos := pos + 1;
      } else if lexeme.Newlines? {
        // t_newline
        NewlinesAgree(data, pos, line, errors, goal);
        line := line + lexeme.count;
        pos := pos + lexeme.count;
      } else if lexeme.Unexpected? {
        // t_error: report the character and skip it
        UnexpectedAgrees(data, pos, line, errors, goal);
        errors := errors + [lexeme.c];
        pos := pos + 1;
      } else {
        MatchedAgrees(data, pos, line, errors, goal);
        t := Some(LexToken(lexeme.kind, lexeme.value, line, pos));
        pos := pos + lexeme.length;
        return;
      }
    }
    t := None;
  }

  /** All the tokens of one input, from `pos` on. */
  datatype Lexing = Lexing(tokens: seq<LexToken>, lineno: nat, reported: string)

  function TokensFrom(data: string, pos: nat, lineno: nat): (r: Lexing)
    requires pos <= |data|
    ensures lineno <= r.lineno
    ensures forall t :: t in r.tokens ==> pos <= t.lexpos < |data| && t.kind != Command
    decreases |data| - pos
  {
    var next := NextToken(data, pos, lineno);
    if next.token.None? then Lexing([], next.lineno, next.reported)
    else
      var rest := TokensFrom(data, next.pos, next.lineno);
      Lexing([next.token.value] + rest.tokens, rest.lineno, next.reported + rest.reported)
  }

  /** One request for the next token: the tokens from `pos` are the token
      it finds followed by the tokens after it. */
  lemma {:induction false} TokensFromStep(data: string, pos: nat, lineno: nat)
    requires pos <= |data|
    ensures var next, r := NextToken(data, pos, lineno), TokensFrom(data, pos, lineno);
      && (next.token.None? ==> r == Lexing([], next.lineno, next.reported))
      && (next.token.Some? ==>
            var rest := TokensFrom(data, next.pos, next.lineno);
            r == Lexing([next.token.value] + rest.tokens, rest.lineno, next.reported + rest.reported))
  {
  }

  /** Every token's line number is the starting line number plus the
      newlines before it in the input, and the line number left behind
      counts every newline of the input. */
  lemma {:induction false} TokensFromCountLines(data: string, pos: nat, lineno: nat)
    requires pos <= |data|
    ensures var r := TokensFrom(data, pos, lineno);
      && r.lineno == lineno + Count(data[pos..], '\n')
      && forall t :: t in r.tokens ==> t.lineno == lineno + Count(data[pos..t.lexpos], '\n')
    decreases |data| - pos
  {
    var next := NextToken(data, pos, lineno);
    NextTokenMeaning(data, pos, lineno);
    assert data[pos..] == data[pos..|data|];
    if next.token.Some? {
      var t := next.token.value;
      TokensFromCountLines(data, next.pos, next.lineno);
      assert data[next.pos..] == data[next.pos..|data|];
      CountSplit(data, pos, next.pos, |data|);
      CountSplit(data, pos, t.lexpos, next.pos);
      CountNone(data[t.lexpos..next.pos], '\n');
      forall u | u in TokensFrom(data, next.pos, next.lineno).tokens
        ensures u.lineno == lineno + Count(data[pos..u.lexpos], '\n')
      {
        CountSplit(data, pos, next.pos, u.lexpos);
      }
    }
  }

  // ---------------------------------------------------------------------
  // The lexer object and the per-line driver
  // ---------------------------------------------------------------------

  /** The lexer's own state: the current input, the cursor in it, the line
      counter and the characters reported as unexpected so far. */
  class Lexer {
    var lexdata: string
    var lexpos: nat
    var lineno: nat
    var reported: string

    predicate Valid()
      reads this
    {
      lexpos <= |lexdata|
    }

    constructor ()
      ensures Valid() && lexdata == [] && lexpos == 0 && lineno == 1 && reported == []
    {
      lexdata, lexpos, lineno, reported := [], 0, 1, [];
    }

    /** `input`: a new text to scan from its start; the line counter carries
        over from the previous text. */
    method Input(data: string)
      modifies this
      ensures Valid() && lexdata == data && lexpos == 0
      ensures lineno == old(lineno) && reported == old(reported)
    {
      lexdata, lexpos := data, 0;
    }

    /** `token`: the next token, or none once the input is used up. The
        search runs on copies of the cursor and the line counter, written
        back once it ends. */
    method Token() returns (t: Option<LexToken>)
      requires Valid()
      modifies this
      ensures Valid() && lexdata == old(lexdata)
      ensures var r := NextToken(old(lexdata), old(lexpos), old(lineno));
        t == r.token && lexpos == r.pos && lineno == r.lineno && reported == old(reported) + r.reported
    {
      var errors;
      t, lexpos, lineno, errors := Search(lexdata, lexpos, lineno);
      reported := reported + errors;
    }

    /** Iterating over the lexer: every token left in the input, in order. */
    method Remaining() returns (tokens: seq<LexToken>)
      requires Valid()
      modifies this
      ensures Valid() && lexdata == old(lexdata)
      ensures var r := TokensFrom(old(lexdata), old(lexpos), old(lineno));
        tokens == r.tokens && lineno == r.lineno && reported == old(reported) + r.reported
    {
      ghost var goal := TokensFrom(lexdata, lexpos, lineno);
      ghost var reported0 := reported;
      ghost var rest := goal;
      tokens := [];
      while true
        invariant Valid() && lexdata == old(lexdata)
        invariant rest == TokensFrom(lexdata, lexpos, lineno)
        invariant tokens + rest.tokens == goal.tokens && rest.lineno == goal.lineno
        invariant reported + rest.reported == reported0 + goal.reported
        decreases |lexdata| - lexpos
      {
        TokensFromStep(lexdata, lexpos, lineno);
        ghost var next := NextToken(lexdata, lexpos, lineno);
        ghost var reported1 := reported;
        var t := Token();
        if t.None? {
          return;
        }
        ghost var after := TokensFrom(lexdata, lexpos, lineno);
        ListAlgebra(tokens, t.value, after.tokens, rest.tokens, reported1, next.reported, after.reported);
        tokens := tokens + [t.value];
        rest := after;
      }
    }
  }

  lemma {:induction false} ListAlgebra<X>(a: seq<X>, x: X, b: seq<X>, c: seq<X>, r: seq<char>, n: seq<char>, m: seq<char>)
    requires c == [x] + b
    ensures a + [x] + b == a + c
    ensures r + n + m == r + (n + m)
  {
  }

  /** The tokens of the lines read so far, with the line counter carried
      from each line to the next. */
  function LexLines(lines: seq<string>): (r: Lexing)
    ensures r.lineno >= 1
    ensures forall t :: t in r.tokens ==> t.kind != Command
  {
    if lines == [] then Lexing([], 1, [])
    else
      var before := LexLines(lines[..|lines| - 1]);
      var last := TokensFrom(lines[|lines| - 1], 0, before.lineno);
      Lexing(before.tokens + last.tokens, last.lineno, before.reported + last.reported)
  }

  /** The whole text the lines make up. */
  function Joined(lines: seq<string>): string {
    if lines == [] then [] else Joined(lines[..|lines| - 1]) + lines[|lines| - 1]
  }

  /** After all the lines, the line counter is one more than the number of
      newlines in them. */
  lemma {:induction false} LexLinesCountLines(lines: seq<string>)
    ensures LexLines(lines).lineno == 1 + Count(Joined(lines), '\n')
  {
    if lines != [] {
      var init, last := lines[..|lines| - 1], lines[|lines| - 1];
      LexLinesCountLines(init);
      TokensFromCountLines(last, 0, LexLines(init).lineno);
      assert last[0..] == last;
      CountAppend(Joined(init), last, '\n');
    }
  }

  /** The main loop: each line is given to the one lexer and its tokens are
      collected in order. */
  method LexAll(lines: seq<string>) returns (tokens: seq<LexToken>, reported: string)
    ensures LexLines(lines) == Lexing(tokens, LexLines(lines).lineno, reported)
  {
    var lexer := new Lexer();
    tokens := [];
    for i := 0 to |lines|
      invariant lexer.Valid()
      invariant LexLines(lines[..i]) == Lexing(tokens, lexer.lineno, lexer.reported)
    {
      lexer.Input(lines[i]);
      var lineTokens := lexer.Remaining();
      assert lines[..i + 1][..i] == lines[..i];
      tokens := tokens + lineTokens;
    }
    assert lines[..|lines|] == lines;
    reported := lexer.reported;
  }

  // ---------------------------------------------------------------------
  // What particular inputs give
  // ---------------------------------------------------------------------

  /** A word of letters standing alone is one token whose type is its
      keyword when its lower-case form is reserved, FIELD otherwise. */
  lemma {:induction false} ScanWord(word: string, rest: string)
    requires word != [] && forall i :: 0 <= i < |word| ==> IsAsciiLetter(word[i])
    requires rest == [] || !IsWordChar(rest[0])
    ensures Scan(word + rest, 0) == Matched(Classify(word), Text(word), |word|)
  {
    var data := word + rest;
    WordIsTheOnlyMatch(data, 0, |word|);
    assert data[..|word|] == word;
  }

  /** Letters glued to a digit match no rule: each letter is reported on
      its own, then the digit is read as a number. */
  lemma {:induction false} GluedWordIsRejected()
    ensures Scan("ab1", 0) == Unexpected('a')
    ensures Scan("ab1", 1) == Unexpected('b')
    ensures Scan("ab1", 2) == Matched(Number, Integer(1), 1)
  {
    assert LettersFrom("ab1", 0) == 2;
    assert LettersFrom("ab1", 1) == 1;
    assert "ab1"[2..3] == "1";
    assert DigitsValue("1") == DigitsValue("") * 10 + 1;
  }

  /** A written natural number is read back as that integer. */
  lemma {:induction false} ScanInteger(n: nat, rest: string)
    requires rest == [] || (!IsDigit(rest[0]) && rest[0] != '.')
    ensures Scan(NatToString(n) + rest, 0) == Matched(Number, Integer(n), |NatToString(n)|)
  {
    var s := NatToString(n);
    var data := s + rest;
    DigitsFromRun(data, 0, |s|);
    assert data[0..|s|] == s;
    NatToStringRoundTrip(n);
  }

  /** Two digit runs around a point are read as one exact decimal. */
  lemma {:induction false} ScanDecimal(whole: string, fraction: string, rest: string)
    requires whole != [] && fraction != [] && AllDigits(whole) && AllDigits(fraction)
    requires rest == [] || !IsDigit(rest[0])
    ensures Scan(whole + "." + fraction + rest, 0) ==
      Matched(Number, Decimal(DigitsValue(whole + fraction), |fraction|), |whole| + 1 + |fraction|)
  {
    var data := whole + "." + fraction + rest;
    var w, f := |whole|, |fraction|;
    assert data[..w] == whole;
    assert data[w + 1..w + 1 + f] == fraction;
    assert w + 1 + f < |data| ==> data[w + 1 + f] == rest[0];
    DecimalLength(data, w, f);
    assert data[0..w] + data[w + 1..w + 1 + f] == whole + fraction;
    assert IsDigit(data[0]) && LettersFrom(data, 0) == 0;
    assert NumberValue(data, 0, w + 1 + f) == Decimal(DigitsValue(whole + fraction), f);
  }

  lemma {:induction false} DecimalLength(data: string, w: nat, f: nat)
    requires 0 < w && 0 < f && w + 1 + f <= |data|
    requires forall k :: 0 <= k < w ==> IsDigit(data[k])
    requires data[w] == '.'
    requires forall k :: w < k < w + 1 + f ==> IsDigit(data[k])
    requires w + 1 + f == |data| || !IsDigit(data[w + 1 + f])
    ensures DigitsFrom(data, 0) == w && NumberLength(data, 0) == w + 1 + f
  {
    DigitsFromRun(data, 0, w);
    DigitsFromRun(data, w + 1, w + 1 + f);
  }

  /** `>=` is one operator, not `>` followed by `=`. */
  lemma {:induction false} ScanComparison(rest: string)
    ensures Scan(">=" + rest, 0) == Matched(MathOperator, Text(">="), 2)
    ensures Scan("<=" + rest, 0) == Matched(MathOperator, Text("<="), 2)
  {
    assert (">=" + rest)[0..2] == ">=";
    assert ("<=" + rest)[0..2] == "<=";
  }

  /** A run of newlines is skipped as a whole and counted. */
  lemma {:induction false} NewlinesAreCounted(k: nat, lineno: nat)
    ensures NextToken(Newline(k), 0, lineno) == Next(None, k, lineno + k, [])
  {
    NewlinesFromRun(Newline(k), 0);
  }

  function Newline(k: nat): (s: string)
    ensures |s| == k && forall i :: 0 <= i < k ==> s[i] == '\n'
  {
    if k == 0 then [] else Newline(k - 1) + "\n"
  }

  lemma {:induction false} NewlinesFromRun(s: string, i: nat)
    requires i <= |s| && forall k :: i <= k < |s| ==> s[k] == '\n'
    ensures NewlinesFrom(s, i) == |s| - i
    decreases |s| - i
  {
    if i < |s| {
      NewlinesFromRun(s, i + 1);
    }
  }

  /** An unexpected character is reported and skipped; nothing else
      changes, and lexing goes on from the next character. */
  lemma {:induction false} UnexpectedIsSkipped(data: string, pos: nat, lineno: nat)
    requires pos < |data| && Scan(data, pos).Unexpected?
    ensures var r, rest := NextToken(data, pos, lineno), NextToken(data, pos + 1, lineno);
      r == rest.(reported := [data[pos]] + rest.reported)
  {
  }
}
