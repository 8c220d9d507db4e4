/** The medical-exam dataset summary: one record per line of a CSV file,
    the sorted list of sports, the number of athletes fit to compete and
    the distribution of athletes over five-year age groups. */
module Athletes {
  import opened Common

  /** Columns of a record, counted from zero. */
  const ModalityIndex: nat := 8
  const ResultIndex: nat := 12
  const AgeIndex: nat := 5

  const AgeGroupInterval: nat := 5
  const Separator: char := ','

  /** Why reading a record stops the whole summary: a missing column
      (`IndexError`) or an age that is not an integer (`ValueError`). */
  datatype ParseError = IndexError | ValueError

  // ---------------------------------------------------------------------
  // Splitting a line into columns

  /** The index of the first `c` in `s`, or `|s|` when there is none. */
  function Find(s: string, c: char): (i: nat)
    ensures i <= |s| && (i < |s| ==> s[i] == c)
    ensures forall k :: 0 <= k < i ==> s[k] != c
  {
    if s == [] || s[0] == c then 0 else 1 + Find(s[1..], c)
  }

  /** Python's `str.split(sep)`: the pieces between separators, empty
      pieces included. */
  function Split(s: string, sep: char): (r: seq<string>)
    ensures r != []
    ensures forall i :: 0 <= i < |r| ==> sep !in r[i]
    decreases |s|
  {
    var i := Find(s, sep);
    if i == |s| then [s] else [s[..i]] + Split(s[i + 1..], sep)
  }

  /** Python's `sep.join(parts)`. */
  function Join(parts: seq<string>, sep: char): string {
    if parts == [] then []
    else if |parts| == 1 then parts[0]
    else parts[0] + [sep] + Join(parts[1..], sep)
  }

  /** Joining the pieces of a split gives the line back. */
  lemma {:induction false} JoinSplit(s: string, sep: char)
    ensures Join(Split(s, sep), sep) == s
    decreases |s|
  {
    var i := Find(s, sep);
    if i < |s| {
      var rest := Split(s[i + 1..], sep);
      JoinSplit(s[i + 1..], sep);
      assert Split(s, sep)[1..] == rest;
      assert s == s[..i] + [sep] + s[i + 1..];
    }
  }

  /** There is one more piece than there are separators. */
  lemma {:induction false} SplitCount(s: string, sep: char)
    ensures |Split(s, sep)| == Count(s, sep) + 1
    decreases |s|
  {
    var i := Find(s, sep);
    if i < |s| {
      SplitCount(s[i + 1..], sep);
      assert s == s[..i] + [sep] + s[i + 1..];
      CountAppend(s[..i] + [sep], s[i + 1..], sep);
      CountAppend(s[..i], [sep], sep);
      CountNone(s[..i], sep);
    } else {
      CountNone(s, sep);
    }
  }

  /** Splitting joined pieces that hold no separator gives the pieces back. */
  lemma {:induction false} SplitJoin(parts: seq<string>, sep: char)
    requires parts != []
    requires forall i :: 0 <= i < |parts| ==> sep !in parts[i]
    ensures Split(Join(parts, sep), sep) == parts
    decreases |parts|
  {
    var p := parts[0];
    FindNone(p, sep);
    if |parts| > 1 {
      var rest := Join(parts[1..], sep);
      var s := p + [sep] + rest;
      FindAfter(p, sep, rest);
      assert s[..|p|] == p && s[|p| + 1..] == rest;
      SplitJoin(parts[1..], sep);
      assert parts == [p] + parts[1..];
    }
  }

  lemma {:induction false} FindNone(s: string, c: char)
    requires c !in s
    ensures Find(s, c) == |s|
  {
    if s != [] {
      FindNone(s[1..], c);
    }
  }

  lemma {:induction false} FindAfter(p: string, c: char, rest: string)
    requires c !in p
    ensures Find(p + [c] + rest, c) == |p|
  {
    if p != [] {
      assert (p + [c] + rest)[1..] == p[1..] + [c] + rest;
      FindAfter(p[1..], c, rest);
    }
  }

  // ---------------------------------------------------------------------
  // Python's int() on a column

  /** Decimal digits in which single underscores may separate two digits,
      as Python's `int()` accepts them: read from the end, a digit preceded
      by nothing, by more groups, or by one underscore and more groups. */
  predicate IsDigitGroups(s: string)
    decreases |s|
  {
    && s != [] && IsDigit(s[|s| - 1])
    && (|s| == 1
        || if s[|s| - 2] == '_' then |s| > 2 && IsDigitGroups(s[..|s| - 2]) else IsDigitGroups(s[..|s| - 1]))
  }

  /** The value of the digits of `s`, the underscores skipped. */
  function GroupsValue(s: string): nat {
    if s == [] then 0
    else if !IsDigit(s[|s| - 1]) then GroupsValue(s[..|s| - 1])
    else GroupsValue(s[..|s| - 1]) * 10 + DigitValue(s[|s| - 1])
  }

  /** Python's `int(text)` in base 10: surrounding whitespace, then an
      optional sign and digit groups; anything else is a `ValueError`. */
  function ParseInt(text: string): (r: Result<int, ParseError>)
    ensures r.Err? ==> r.error == ValueError
  {
    var t := Strip(text);
    var signed := t != [] && (t[0] == '-' || t[0] == '+');
    var body := if signed then t[1..] else t;
    if IsDigitGroups(body) then
      var n: int := GroupsValue(body);
      Ok(if signed && t[0] == '-' then -n else n)
    else Err(ValueError)
  }

  /** Python's `str(n)` for an integer. */
  function IntToString(n: int): string {
    if n < 0 then "-" + NatToString(-n) else NatToString(n)
  }

  /** Plain digits are one group, whose value is that of the digits. */
  lemma {:induction false} PlainDigitsAreGroups(s: string)
    requires AllDigits(s) && s != []
    ensures IsDigitGroups(s) && GroupsValue(s) == DigitsValue(s)
  {
    if |s| > 1 {
      PlainDigitsAreGroups(s[..|s| - 1]);
    }
  }

  /** `int()` reads back what `str()` writes. */
  lemma {:induction false} ParseIntRoundTrip(n: int)
    ensures ParseInt(IntToString(n)) == Ok(n)
  {
    var m: nat := if n < 0 then -n else n;
    var digits := NatToString(m);
    NatToStringRoundTrip(m);
    PlainDigitsAreGroups(digits);
    var s := IntToString(n);
    var first, last := digits[0], digits[|digits| - 1];
    assert IsDigit(first) && IsDigit(last);
    assert !IsSpace(first) && !IsSpace(last) && !IsSpace('-');
    assert s[|s| - 1] == last;
    assert s[0] == if n < 0 then '-' else first;
    StripKeeps(s);
    if n < 0 {
      ReadSigned(s, digits);
    } else {
      ReadUnsigned(s);
    }
  }

  lemma {:induction false} ReadSigned(s: string, digits: string)
    requires Strip(s) == s && s == "-" + digits && IsDigitGroups(digits)
    ensures ParseInt(s) == Ok(0 - GroupsValue(digits) as int)
  {
    assert s[1..] == digits;
  }

  lemma {:induction false} ReadUnsigned(s: string)
    requires Strip(s) == s && IsDigitGroups(s)
    ensures ParseInt(s) == Ok(GroupsValue(s))
  {
    GroupsStartWithDigit(s);
  }

  /** Digit groups begin with a digit, so they carry no sign. */
  lemma {:induction false} GroupsStartWithDigit(s: string)
    requires IsDigitGroups(s)
    ensures IsDigit(s[0])
    decreases |s|
  {
    if |s| > 1 {
      var init := if s[|s| - 2] == '_' then s[..|s| - 2] else s[..|s| - 1];
      GroupsStartWithDigit(init);
      assert init[0] == s[0];
    }
  }

  /** Whitespace around the number does not change what `int()` reads. */
  lemma {:induction false} ParseIntIgnoresBlanks(before: string, text: string, after: string)
    requires AllSpace(before) && AllSpace(after) && Stripped(text)
    ensures ParseInt(before + text + after) == ParseInt(text)
  {
    StripSurrounded(before, text, after);
    StripKeeps(text);
  }

  // ---------------------------------------------------------------------
  // Age groups

  /** An age group as the pair of its bounds. */
  datatype AgeGroup = AgeGroup(lower: int, upper: int)

  /** The five-year group holding `age`. Python's `%` floors and Dafny's is
      Euclidean; both leave a remainder in 0..4 for a divisor of 5. */
  function Bucket(age: int): (g: AgeGroup)
    ensures g.lower % AgeGroupInterval == 0
    ensures g.upper == g.lower + AgeGroupInterval - 1
    ensures g.lower <= age <= g.upper
  {
    var lower := age - age % AgeGroupInterval;
    AgeGroup(lower, lower + AgeGroupInterval - 1)
  }

  /** A group of the right shape that holds the age is the age's group. */
  lemma {:induction false} BucketIsUnique(age: int, g: AgeGroup)
    requires g.lower % AgeGroupInterval == 0 && g.upper == g.lower + AgeGroupInterval - 1
    requires g.lower <= age <= g.upper
    ensures g == Bucket(age)
  {
    var b := Bucket(age);
    var q, p := g.lower / 5, b.lower / 5;
    assert g.lower == 5 * q && b.lower == 5 * p;
  }

  // ---------------------------------------------------------------------
  // Records

  /** What the summary keeps of one record. */
  datatype Record = Record(modality: string, passed: bool, age: int)

  /** One line of the dataset: stripped, split on commas, then the sport,
      the exam result (fit when it reads "true" in any case) and the age. */
  function ParseRecord(line: string): (r: Result<Record, ParseError>)
    ensures r == Err(IndexError) <==> |Split(Strip(line), Separator)| <= ResultIndex
    ensures r == Err(ValueError) <==>
      |Split(Strip(line), Separator)| > ResultIndex && ParseInt(Split(Strip(line), Separator)[AgeIndex]).Err?
  {
    var columns := Split(Strip(line), Separator);
    if |columns| <= ResultIndex then Err(IndexError)
    else match ParseInt(columns[AgeIndex])
      case Err(e) => Err(e)
      case Ok(age) => Ok(Record(columns[ModalityIndex], Lower(columns[ResultIndex]) == "true", age))
  }

  /** A line made of at least thirteen columns yields the sport of column
      8, the result of column 12 and the age of column 5. */
  lemma {:induction false} RecordOfColumns(columns: seq<string>, age: int)
    requires |columns| > ResultIndex
    requires forall i :: 0 <= i < |columns| ==> Separator !in columns[i]
    requires Stripped(Join(columns, Separator))
    requires ParseInt(columns[AgeIndex]) == Ok(age)
    ensures ParseRecord(Join(columns, Separator))
         == Ok(Record(columns[ModalityIndex], Lower(columns[ResultIndex]) == "true", age))
  {
    StripKeeps(Join(columns, Separator));
    SplitJoin(columns, Separator);
  }

  /** A line of twelve columns or fewer is an `IndexError`. */
  lemma {:induction false} ShortRecordIsAnIndexError(columns: seq<string>)
    requires 0 < |columns| <= ResultIndex
    requires forall i :: 0 <= i < |columns| ==> Separator !in columns[i]
    requires Stripped(Join(columns, Separator))
    ensures ParseRecord(Join(columns, Separator)) == Err(IndexError)
  {
    StripKeeps(Join(columns, Separator));
    SplitJoin(columns, Separator);
  }

  /** The exam result compares its lower-case form with "true": "True" and
      "TRUE" count as fit, "yes" does not. */
  lemma {:induction false} ResultIgnoresCase()
    ensures Lower("True") == "true" && Lower("TRUE") == "true" && Lower("yes") != "true"
  {
  }

  // ---------------------------------------------------------------------
  // The per-record tally

  /** The lists and the dictionary the main loop fills. */
  datatype Tally = Tally(modalities: seq<string>, results: seq<bool>, distribution: map<AgeGroup, nat>)

  /** One record appended to the lists and counted in its age group. */
  function Add(t: Tally, r: Record): (u: Tally)
    ensures |u.modalities| == |t.modalities| + 1 && |u.results| == |t.results| + 1
    ensures Total(u.distribution) == Total(t.distribution) + 1
    ensures forall g :: g in t.distribution ==> g in u.distribution && t.distribution[g] <= u.distribution[g]
  {
    var g := Bucket(r.age);
    var d := t.distribution;
    TotalIncrement(d, g);
    Tally(t.modalities + [r.modality], t.results + [r.passed], d[g := (if g in d then d[g] else 0) + 1])
  }

  /** Each line read on its own. */
  function ParseLines(lines: seq<string>): (r: seq<Result<Record, ParseError>>)
    ensures |r| == |lines|
  {
    if lines == [] then [] else ParseLines(lines[..|lines| - 1]) + [ParseRecord(lines[|lines| - 1])]
  }

  /** All the records when every line was read, or the first error. */
  function Collect(results: seq<Result<Record, ParseError>>): (r: Result<seq<Record>, ParseError>)
    ensures r.Ok? ==> |r.value| == |results|
  {
    if results == [] then Ok([])
    else match Collect(results[..|results| - 1])
      case Err(e) => Err(e)
      case Ok(rs) => match results[|results| - 1]
        case Err(e) => Err(e)
        case Ok(r) => Ok(rs + [r])
  }

  /** The records of `lines`, or the error of the first line that cannot
      be read: the loop stops at the first exception. */
  function Records(lines: seq<string>): (r: Result<seq<Record>, ParseError>)
    ensures r.Ok? ==> |r.value| == |lines|
  {
    Collect(ParseLines(lines))
  }

  lemma {:induction false} ParseLinesAt(lines: seq<string>, i: nat)
    requires i < |lines|
    ensures ParseLines(lines)[i] == ParseRecord(lines[i])
  {
    var init := lines[..|lines| - 1];
    if i < |init| {
      ParseLinesAt(init, i);
    }
  }

  lemma {:induction false} ParseLinesPrefix(lines: seq<string>, n: nat)
    requires n <= |lines|
    ensures ParseLines(lines[..n]) == ParseLines(lines)[..n]
    decreases |lines|
  {
    if n < |lines| {
      var init := lines[..|lines| - 1];
      assert init[..n] == lines[..n];
      ParseLinesPrefix(init, n);
    } else {
      assert lines[..n] == lines;
    }
  }

  lemma {:induction false} CollectStopsAtError(results: seq<Result<Record, ParseError>>, n: nat)
    requires n <= |results| && Collect(results[..n]).Err?
    ensures Collect(results) == Collect(results[..n])
    decreases |results| - n
  {
    if n < |results| {
      assert results[..n + 1][..n] == results[..n];
      CollectStopsAtError(results, n + 1);
    } else {
      assert results[..n] == results;
    }
  }

  lemma {:induction false} CollectAt(results: seq<Result<Record, ParseError>>, i: nat)
    requires Collect(results).Ok? && i < |results|
    ensures results[i] == Ok(Collect(results).value[i])
  {
    var init := results[..|results| - 1];
    if i < |init| {
      CollectAt(init, i);
    }
  }

  lemma {:induction false} CollectFailsAtFirstError(results: seq<Result<Record, ParseError>>)
    requires Collect(results).Err?
    ensures exists i :: && 0 <= i < |results| && results[i] == Err(Collect(results).error)
                         && forall j :: 0 <= j < i ==> results[j].Ok?
  {
    var init := results[..|results| - 1];
    if Collect(init).Err? {
      CollectFailsAtFirstError(init);
      var i :| && 0 <= i < |init| && init[i] == Err(Collect(init).error)
               && forall j :: 0 <= j < i ==> init[j].Ok?;
      assert results[i] == init[i];
      assert forall j :: 0 <= j < i ==> results[j] == init[j];
    } else {
      var k := |results| - 1;
      forall j | 0 <= j < k
        ensures results[j].Ok?
      {
        CollectAt(init, j);
      }
    }
  }

  /** Reading one more line: its record is appended, or its error ends the
      reading. */
  lemma {:induction false} RecordsStep(lines: seq<string>, i: nat)
    requires i < |lines| && Records(lines[..i]).Ok?
    ensures var line := ParseRecord(lines[i]);
      Records(lines[..i + 1]) == if line.Ok? then Ok(Records(lines[..i]).value + [line.value]) else Err(line.error)
  {
    var prefix := lines[..i + 1];
    assert prefix[..i] == lines[..i];
    var results := ParseLines(prefix);
    assert results == ParseLines(lines[..i]) + [ParseRecord(lines[i])];
    assert results[..i] == ParseLines(lines[..i]);
  }

  /** One more result: its record is appended, or its error ends the
      collection. */
  lemma {:induction false} CollectStep(results: seq<Result<Record, ParseError>>, i: nat)
    requires i < |results| && Collect(results[..i]).Ok?
    ensures Collect(results[..i + 1])
         == if results[i].Ok? then Ok(Collect(results[..i]).value + [results[i].value]) else Err(results[i].error)
  {
    assert results[..i + 1][..i] == results[..i];
  }

  /** Once a line fails, the lines after it change nothing. */
  lemma {:induction false} RecordsStopAtError(lines: seq<string>, n: nat)
    requires n <= |lines| && Records(lines[..n]).Err?
    ensures Records(lines) == Records(lines[..n])
  {
    ParseLinesPrefix(lines, n);
    CollectStopsAtError(ParseLines(lines), n);
  }

  /** Record `i` is what line `i` holds. */
  lemma {:induction false} RecordOfLine(lines: seq<string>, i: nat)
    requires Records(lines).Ok? && i < |lines|
    ensures ParseRecord(lines[i]) == Ok(Records(lines).value[i])
  {
    CollectAt(ParseLines(lines), i);
    ParseLinesAt(lines, i);
  }

  /** Reading fails if and only if some line cannot be read. */
  lemma {:induction false} RecordsFailIffSomeLineFails(lines: seq<string>)
    ensures Records(lines).Err? <==> exists i :: 0 <= i < |lines| && ParseRecord(lines[i]).Err?
  {
    if Records(lines).Err? {
      RecordsFailAtFirstError(lines);
    } else {
      forall i | 0 <= i < |lines|
        ensures ParseRecord(lines[i]).Ok?
      {
        RecordOfLine(lines, i);
      }
    }
  }

  /** Reading fails with the error of the first line that cannot be read. */
  lemma {:induction false} RecordsFailAtFirstError(lines: seq<string>)
    requires Records(lines).Err?
    ensures exists i :: && 0 <= i < |lines| && ParseRecord(lines[i]) == Err(Records(lines).error)
                         && forall j :: 0 <= j < i ==> ParseRecord(lines[j]).Ok?
  {
    var results := ParseLines(lines);
    CollectFailsAtFirstError(results);
    var i :| && 0 <= i < |results| && results[i] == Err(Collect(results).error)
             && forall j :: 0 <= j < i ==> results[j].Ok?;
    ParseLinesAt(lines, i);
    forall j | 0 <= j < i
      ensures ParseRecord(lines[j]).Ok?
    {
      ParseLinesAt(lines, j);
    }
  }

  /** Counting one more record is one `Add` on the tally so far. */
  lemma {:induction false} TallyStep(records: seq<Record>, r: Record)
    ensures TallyOfRecords(records + [r]) == Add(TallyOfRecords(records), r)
  {
    assert (records + [r])[..|records|] == records;
  }

  /** The lists and the dictionary after counting `records` in order. */
  function TallyOfRecords(records: seq<Record>): (t: Tally)
    ensures |t.modalities| == |t.results| == |records|
  {
    if records == [] then Tally([], [], map[])
    else Add(TallyOfRecords(records[..|records| - 1]), records[|records| - 1])
  }

  /** The tally of the lines, or the error of the first line that cannot
      be read. */
  function TallyOf(lines: seq<string>): Result<Tally, ParseError> {
    match Records(lines)
      case Err(e) => Err(e)
      case Ok(rs) => Ok(TallyOfRecords(rs))
  }

  /** Entry `i` of the lists is what record `i` holds, and its age group is
      a key of the dictionary. */
  lemma {:induction false} TallyEntries(records: seq<Record>, i: nat)
    requires i < |records|
    ensures var t := TallyOfRecords(records);
      && t.modalities[i] == records[i].modality && t.results[i] == records[i].passed
      && Bucket(records[i].age) in t.distribution
  {
    var init := records[..|records| - 1];
    if i < |init| {
      TallyEntries(init, i);
    }
  }

  /** The age group of each record, in order. */
  function GroupsOf(records: seq<Record>): (r: seq<AgeGroup>)
    ensures |r| == |records| && forall i :: 0 <= i < |r| ==> r[i] == Bucket(records[i].age)
  {
    if records == [] then [] else GroupsOf(records[..|records| - 1]) + [Bucket(records[|records| - 1].age)]
  }

  /** The dictionary is the histogram of the age groups: each group is
      counted once per record in it, and a group no record falls in is
      absent. */
  lemma {:induction false} DistributionCounts(records: seq<Record>, g: AgeGroup)
    ensures var d := TallyOfRecords(records).distribution;
      (if g in d then d[g] else 0) == Count(GroupsOf(records), g)
  {
    if records != [] {
      DistributionCounts(records[..|records| - 1], g);
    }
  }

  /** Every group in the dictionary is a five-year group holding at least
      one record. */
  ghost predicate GroupsWellFormed(d: map<AgeGroup, nat>) {
    forall g :: g in d ==> d[g] > 0 && g.lower % AgeGroupInterval == 0 && g.upper == g.lower + AgeGroupInterval - 1
  }

  lemma {:induction false} TallyGroupsWellFormed(records: seq<Record>)
    ensures GroupsWellFormed(TallyOfRecords(records).distribution)
  {
    if records != [] {
      TallyGroupsWellFormed(records[..|records| - 1]);
    }
  }

  /** The sum of the counts of a dictionary. */
  ghost function Total(m: map<AgeGroup, nat>): nat
    decreases |m.Keys|
  {
    if m == map[] then 0
    else
      var k :| k in m;
      m[k] + Total(m - {k})
  }

  /** The sum does not depend on which key is taken out first. */
  lemma {:induction false} TotalRemove(m: map<AgeGroup, nat>, k: AgeGroup)
    requires k in m
    ensures Total(m) == m[k] + Total(m - {k})
    decreases |m.Keys|
  {
    var j :| j in m && Total(m) == m[j] + Total(m - {j});
    if j != k {
      assert |(m - {j}).Keys| < |m.Keys| by { assert m.Keys == (m - {j}).Keys + {j}; }
      assert |(m - {k}).Keys| < |m.Keys| by { assert m.Keys == (m - {k}).Keys + {k}; }
      TotalRemove(m - {j}, k);
      TotalRemove(m - {k}, j);
      assert (m - {j}) - {k} == (m - {k}) - {j};
    }
  }

  /** Counting one more record in a group adds one to the sum. */
  lemma {:induction false} TotalIncrement(m: map<AgeGroup, nat>, g: AgeGroup)
    ensures Total(m[g := (if g in m then m[g] else 0) + 1]) == Total(m) + 1
  {
    var n := m[g := (if g in m then m[g] else 0) + 1];
    TotalRemove(n, g);
    if g in m {
      TotalRemove(m, g);
      assert n - {g} == m - {g};
    } else {
      assert n - {g} == m;
    }
  }

  /** The group counts add up to the number of records. */
  lemma {:induction false} DistributionTotal(records: seq<Record>)
    ensures Total(TallyOfRecords(records).distribution) == |records|
  {
    if records != [] {
      var init := records[..|records| - 1];
      DistributionTotal(init);
      TotalIncrement(TallyOfRecords(init).distribution, Bucket(records[|records| - 1].age));
    }
  }

  /** The main loop over the records: each line is stripped and split, its
      sport and result appended, and its age group counted in place; the
      first line that cannot be read ends the loop with its error. */
  method Aggregate(content: seq<string>) returns (r: Result<Tally, ParseError>)
    ensures r == TallyOf(content)
  {
    var modalities: seq<string> := [];
    var results: seq<bool> := [];
    var distribution: map<AgeGroup, nat> := map[];
    ghost var records: seq<Record> := [];
    ghost var parsed := ParseLines(content);
    for i := 0 to |content|
      invariant Collect(parsed[..i]) == Ok(records)
      invariant TallyOfRecords(records) == Tally(modalities, results, distribution)
    {
      var record := ParseRecord(content[i]);
      ParseLinesAt(content, i);
      CollectStep(parsed, i);
      if record.Err? {
        CollectStopsAtError(parsed, i + 1);
        return Err(record.error);
      }
      modalities := modalities + [record.value.modality];
      results := results + [record.value.passed];
      var group := Bucket(record.value.age);
      distribution := distribution[group := (if group in distribution then distribution[group] else 0) + 1];
      TallyStep(records, record.value);
      records := records + [record.value];
    }
    assert parsed[..|content|] == parsed;
    r := Ok(Tally(modalities, results, distribution));
  }

  // ---------------------------------------------------------------------
  // Fit and unfit athletes

  /** Every result is either fit or unfit, so the two counts add up to
      the number of records. */
  lemma {:induction false} PassedAndFailed(results: seq<bool>)
    ensures Count(results, true) + Count(results, false) == |results|
  {
    if results != [] {
      var init := results[..|results| - 1];
      PassedAndFailed(init);
      assert Count(results, true) == Count(init, true) + (if results[|results| - 1] then 1 else 0);
      assert Count(results, false) == Count(init, false) + (if results[|results| - 1] then 0 else 1);
    }
  }

  // ---------------------------------------------------------------------
  // The sport list: dedup_list, then sorted

  predicate NoDuplicates<T(==)>(s: seq<T>) {
    forall i, j :: 0 <= i < j < |s| ==> s[i] != s[j]
  }

  /** `list(set(lst))`: each element once. The order of a Python set is
      not specified; this keeps first occurrences, and the sort that
      follows makes the order irrelevant (`SortedIsUnique`). */
  function Dedup(s: seq<string>): (r: seq<string>)
    ensures NoDuplicates(r)
    ensures forall i :: 0 <= i < |r| ==> r[i] in s
  {
    if s == [] then []
    else
      var d := Dedup(s[..|s| - 1]);
      var x := s[|s| - 1];
      assert s == s[..|s| - 1] + [x];
      if x in d then d else d + [x]
  }

  /** Every element of the input is kept. */
  lemma {:induction false} DedupKeepsAll(s: seq<string>, x: string)
    requires x in s
    ensures x in Dedup(s)
  {
    var init := s[..|s| - 1];
    assert s == init + [s[|s| - 1]];
    if x in init {
      DedupKeepsAll(init, x);
    }
  }

  /** Python's ordering of strings: code point by code point, a prefix
      before any longer string. */
  predicate Below(a: string, b: string) {
    a == [] || (b != [] && (a[0] < b[0] || (a[0] == b[0] && Below(a[1..], b[1..]))))
  }

  lemma {:induction false} BelowTotal(a: string, b: string)
    ensures Below(a, b) || Below(b, a)
  {
    if a != [] && b != [] && a[0] == b[0] {
      BelowTotal(a[1..], b[1..]);
    }
  }

  lemma {:induction false} BelowTransitive(a: string, b: string, c: string)
    requires Below(a, b) && Below(b, c)
    ensures Below(a, c)
  {
    if a != [] && a[0] == b[0] && b[0] == c[0] {
      BelowTransitive(a[1..], b[1..], c[1..]);
    }
  }

  lemma {:induction false} BelowAntisymmetric(a: string, b: string)
    requires Below(a, b) && Below(b, a)
    ensures a == b
  {
    if a != [] {
      BelowAntisymmetric(a[1..], b[1..]);
      assert a == [a[0]] + a[1..] && b == [b[0]] + b[1..];
    }
  }

  predicate Sorted(s: seq<string>) {
    forall i, j :: 0 <= i < j < |s| ==> Below(s[i], s[j])
  }

  /** `x` put into a sorted list before the first element it is below. */
  function Insert(x: string, s: seq<string>): (r: seq<string>)
    requires Sorted(s)
    ensures Sorted(r) && multiset(r) == multiset(s) + multiset{x}
  {
    if s == [] then [x]
    else if Below(x, s[0]) then
      assert forall j :: 0 < j < |s| ==> Below(x, s[j]) by {
        forall j | 0 < j < |s| {
          BelowTransitive(x, s[0], s[j]);
        }
      }
      [x] + s
    else
      BelowTotal(x, s[0]);
      var t := Insert(x, s[1..]);
      assert s == [s[0]] + s[1..];
      assert forall y :: y in t ==> Below(s[0], y) by {
        forall y | y in t
          ensures Below(s[0], y)
        {
          assert y in multiset(t);
          if y != x {
            assert y in s[1..];
          }
        }
      }
      [s[0]] + t
  }

  /** Python's `sorted()` on strings: the same elements in order. */
  function Sort(s: seq<string>): (r: seq<string>)
    ensures Sorted(r) && multiset(r) == multiset(s)
  {
    if s == [] then []
    else
      assert s == [s[0]] + s[1..];
      Insert(s[0], Sort(s[1..]))
  }

  /** The reported sport list: sorted, each sport once, exactly the sports
      of the records. */
  function ModalityList(modalities: seq<string>): (r: seq<string>)
    ensures Sorted(r) && NoDuplicates(r)
    ensures forall i :: 0 <= i < |r| ==> r[i] in modalities
  {
    var d := Dedup(modalities);
    var r := Sort(d);
    assert forall i :: 0 <= i < |r| ==> r[i] in d by {
      forall i | 0 <= i < |r|
        ensures r[i] in d
      {
        assert r[i] in multiset(r);
      }
    }
    PermutationKeepsNoDuplicates(d, r);
    r
  }

  /** Every sport of the records is in the list. */
  lemma {:induction false} ModalityListHasAll(modalities: seq<string>, m: string)
    requires m in modalities
    ensures m in ModalityList(modalities)
  {
    DedupKeepsAll(modalities, m);
    assert m in multiset(Dedup(modalities));
  }

  /** Occurrences of `x` in a sequence without duplicates: at most one. */
  lemma {:induction false} NoDuplicatesCountsOne<T>(s: seq<T>, x: T)
    requires NoDuplicates(s)
    ensures multiset(s)[x] <= 1
  {
    if s != [] {
      var init := s[..|s| - 1];
      NoDuplicatesCountsOne(init, x);
      assert s == init + [s[|s| - 1]];
      assert s[|s| - 1] !in init;
    }
  }

  lemma {:induction false} PermutationKeepsNoDuplicates<T>(s: seq<T>, t: seq<T>)
    requires NoDuplicates(s) && multiset(s) == multiset(t)
    ensures NoDuplicates(t)
  {
    forall i, j | 0 <= i < j < |t|
      ensures t[i] != t[j]
    {
      NoDuplicatesCountsOne(s, t[i]);
      TwoOccurrences(t, i, j);
    }
  }

  /** Equal elements at two positions occur twice. */
  lemma {:induction false} TwoOccurrences<T>(t: seq<T>, i: nat, j: nat)
    requires i < j < |t|
    ensures t[i] == t[j] ==> multiset(t)[t[i]] >= 2
  {
    assert t == t[..j] + [t[j]] + t[j + 1..];
    assert t[..j] == t[..i] + [t[i]] + t[i + 1..j];
  }

  /** Sequences with the same elements are empty together. */
  lemma {:induction false} SameElementsBothEmpty<T>(a: seq<T>, b: seq<T>)
    requires forall x :: x in a <==> x in b
    ensures a == [] <==> b == []
  {
    if a != [] {
      assert a[0] in a;
    }
    if b != [] {
      assert b[0] in b;
    }
  }

  /** Two sorted lists without duplicates holding the same strings are the
      same list: the sport list does not depend on the order the set gave. */
  lemma {:induction false} SortedIsUnique(a: seq<string>, b: seq<string>)
    requires Sorted(a) && NoDuplicates(a) && Sorted(b) && NoDuplicates(b)
    requires forall x :: x in a <==> x in b
    ensures a == b
    decreases |a|
  {
    if a != [] && b != [] {
      assert a[0] in a && b[0] in b;
      var k :| 0 <= k < |b| && b[k] == a[0];
      var m :| 0 <= m < |a| && a[m] == b[0];
      if 0 < k && 0 < m {
        BelowAntisymmetric(a[0], b[0]);
      }
      forall x | x in a[1..]
        ensures x in b[1..]
      {
        var i :| 1 <= i < |a| && a[i] == x;
        assert x != a[0] && x in b;
        assert b == [b[0]] + b[1..];
      }
      forall x | x in b[1..]
        ensures x in a[1..]
      {
        var i :| 1 <= i < |b| && b[i] == x;
        assert x != b[0] && x in a;
        assert a == [a[0]] + a[1..];
      }
      SortedIsUnique(a[1..], b[1..]);
      assert a == [a[0]] + a[1..] && b == [b[0]] + b[1..];
    } else {
      SameElementsBothEmpty(a, b);
    }
  }

  // ---------------------------------------------------------------------
  // The age groups in order

  /** One line of the age report: a group and how many athletes fall in it. */
  datatype GroupCount = GroupCount(group: AgeGroup, count: nat)

  /** Python's order on the `(lower, upper)` pairs: by lower bound, then
      by upper bound. */
  predicate GroupBefore(g: AgeGroup, h: AgeGroup) {
    g.lower < h.lower || (g.lower == h.lower && g.upper <= h.upper)
  }

  /** `g` is a group of `keys` that comes before all of them. */
  predicate IsFirst(g: AgeGroup, keys: set<AgeGroup>) {
    g in keys && forall h :: h in keys ==> GroupBefore(g, h)
  }

  /** A non-empty set of groups has a first group. */
  lemma {:induction false} FirstGroupExists(keys: set<AgeGroup>)
    requires keys != {}
    ensures exists g :: IsFirst(g, keys)
    decreases |keys|
  {
    var k :| k in keys;
    var rest := keys - {k};
    if rest != {} {
      FirstGroupExists(rest);
      var m :| IsFirst(m, rest);
      var first := if GroupBefore(k, m) then k else m;
      assert IsFirst(first, keys) by {
        forall h | h in keys
          ensures GroupBefore(first, h)
        {
          if h != k {
            assert h in rest;
          }
        }
      }
    } else {
      assert keys == {k};
      assert IsFirst(k, keys);
    }
  }

  /** `sorted(age_group_distribution.keys())`, each group with its count. */
  function GroupsInOrder(d: map<AgeGroup, nat>): (r: seq<GroupCount>)
    ensures |r| == |d.Keys|
    ensures forall i :: 0 <= i < |r| ==> r[i].group in d && r[i].count == d[r[i].group]
    ensures forall i, j :: 0 <= i < j < |r| ==> GroupBefore(r[i].group, r[j].group) && r[i].group != r[j].group
    decreases |d.Keys|
  {
    if d == map[] then []
    else
      FirstGroupExists(d.Keys);
      var g :| IsFirst(g, d.Keys);
      var rest := d - {g};
      assert d.Keys == rest.Keys + {g};
      var tail := GroupsInOrder(rest);
      assert forall i :: 0 <= i < |tail| ==> GroupBefore(g, tail[i].group) && tail[i].group != g;
      [GroupCount(g, d[g])] + tail
  }

  /** Every group of the dictionary has a line in the report. */
  lemma {:induction false} GroupsInOrderListsAll(d: map<AgeGroup, nat>, g: AgeGroup)
    requires g in d
    ensures exists i :: 0 <= i < |GroupsInOrder(d)| && GroupsInOrder(d)[i].group == g
    decreases |d.Keys|
  {
    var r := GroupsInOrder(d);
    FirstGroupExists(d.Keys);
    var first :| IsFirst(first, d.Keys);
    var rest := d - {first};
    assert d.Keys == rest.Keys + {first};
    assert r == [GroupCount(first, d[first])] + GroupsInOrder(rest);
    if g == first {
      assert r[0].group == g;
    } else {
      GroupsInOrderListsAll(rest, g);
      var i :| 0 <= i < |GroupsInOrder(rest)| && GroupsInOrder(rest)[i].group == g;
      assert r[i + 1].group == g;
    }
  }

  // ---------------------------------------------------------------------
  // The whole summary

  /** What the program reports. */
  datatype Summary = Summary(modalities: seq<string>, passed: nat, total: nat, groups: seq<GroupCount>)

  /** The records of the file: every line but the header. */
  function DataLines(file: seq<string>): (r: seq<string>)
    ensures |r| == if file == [] then 0 else |file| - 1
    ensures forall i :: 0 <= i < |r| ==> r[i] == file[i + 1]
  {
    if file == [] then [] else file[1..]
  }

  /** The summary of a dataset file given as its lines. */
  function Summarize(file: seq<string>): (r: Result<Summary, ParseError>)
    ensures r.Err? <==> exists i :: 0 <= i < |DataLines(file)| && ParseRecord(DataLines(file)[i]).Err?
    ensures r.Ok? ==> r.value.total == |DataLines(file)|
  {
    RecordsFailIffSomeLineFails(DataLines(file));
    match Records(DataLines(file))
      case Err(e) => Err(e)
      case Ok(records) => Ok(SummaryOf(records))
  }

  /** The summary of the records read: the sorted distinct sports, the
      number of fit athletes, the number of athletes and the histogram in
      order. */
  function SummaryOf(records: seq<Record>): (s: Summary)
    ensures s.passed <= s.total == |records|
  {
    var t := TallyOfRecords(records);
    Summary(ModalityList(t.modalities), Count(t.results, true), |t.results|, GroupsInOrder(t.distribution))
  }

  /** The listed sports are exactly the sports of the records. */
  lemma {:induction false} ModalitiesOfRecords(records: seq<Record>)
    ensures var list := ModalityList(TallyOfRecords(records).modalities);
      forall m :: m in list <==> exists i :: 0 <= i < |records| && records[i].modality == m
  {
    forall m | m in ModalityList(TallyOfRecords(records).modalities)
      ensures exists i :: 0 <= i < |records| && records[i].modality == m
    {
      ListedIsRecorded(records, m);
    }
    forall m | exists i :: 0 <= i < |records| && records[i].modality == m
      ensures m in ModalityList(TallyOfRecords(records).modalities)
    {
      var i :| 0 <= i < |records| && records[i].modality == m;
      RecordedIsListed(records, i);
    }
  }

  /** A listed sport is the sport of some record. */
  lemma {:induction false} ListedIsRecorded(records: seq<Record>, m: string)
    requires m in ModalityList(TallyOfRecords(records).modalities)
    ensures exists i :: 0 <= i < |records| && records[i].modality == m
  {
    var i := ListedIsGiven(TallyOfRecords(records).modalities, m);
    TalliedIsRecorded(records, m, i);
  }

  /** Entry `i` of the tallied sports is the sport of record `i`. */
  lemma {:induction false} TalliedIsRecorded(records: seq<Record>, m: string, i: nat)
    requires i < |TallyOfRecords(records).modalities| && TallyOfRecords(records).modalities[i] == m
    ensures exists j :: 0 <= j < |records| && records[j].modality == m
  {
    TallyEntries(records, i);
  }

  /** The list holds only sports it was given. */
  lemma {:induction false} ListedIsGiven(modalities: seq<string>, m: string) returns (i: nat)
    requires m in ModalityList(modalities)
    ensures i < |modalities| && modalities[i] == m
  {
    var list := ModalityList(modalities);
    var k :| 0 <= k < |list| && list[k] == m;
    assert m in modalities;
    i :| i < |modalities| && modalities[i] == m;
  }

  /** The sport of every record is listed. */
  lemma {:induction false} RecordedIsListed(records: seq<Record>, i: nat)
    requires i < |records|
    ensures records[i].modality in ModalityList(TallyOfRecords(records).modalities)
  {
    TallyEntries(records, i);
    ModalityListHasAll(TallyOfRecords(records).modalities, records[i].modality);
  }

  /** The report's promises about the records read: the sport list is
      sorted, has each sport once and holds exactly the sports of the
      records; the fit athletes are counted among all of them; and the group
      counts add up to the number of records. */
  lemma {:induction false} SummaryOfFacts(records: seq<Record>)
    ensures var s, t := SummaryOf(records), TallyOfRecords(records);
      && Sorted(s.modalities) && NoDuplicates(s.modalities)
      && (forall m :: m in s.modalities <==> exists i :: 0 <= i < |records| && records[i].modality == m)
      && s.passed <= s.total == |records|
      && s.total - s.passed == Count(t.results, false)
      && Total(t.distribution) == s.total
  {
    var t := TallyOfRecords(records);
    ModalitiesOfRecords(records);
    DistributionTotal(records);
    PassedAndFailed(t.results);
  }

  // ---------------------------------------------------------------------
  // The report in terms of the file's lines

  /** The columns of a data line. */
  function Columns(line: string): seq<string> {
    Split(Strip(line), Separator)
  }

  /** The sport in column 8 of a data line; empty when there is none. */
  function SportOf(line: string): string {
    var columns := Columns(line);
    if |columns| > ModalityIndex then columns[ModalityIndex] else ""
  }

  /** A data line of a fit athlete: column 12 reads "true" in any case. */
  predicate FitLine(line: string) {
    var columns := Columns(line);
    |columns| > ResultIndex && Lower(columns[ResultIndex]) == "true"
  }

  /** The age group of column 5 of a data line, when it reads as an integer. */
  function GroupOfLine(line: string): Option<AgeGroup> {
    var columns := Columns(line);
    if |columns| <= AgeIndex then None
    else match ParseInt(columns[AgeIndex])
      case Ok(age) => Some(Bucket(age))
      case Err(_) => None
  }

  /** The number of lines of fit athletes. */
  function FitLines(lines: seq<string>): nat {
    if lines == [] then 0
    else FitLines(lines[..|lines| - 1]) + if FitLine(lines[|lines| - 1]) then 1 else 0
  }

  /** The number of lines whose age falls in group `g`. */
  function LinesInGroup(lines: seq<string>, g: AgeGroup): nat {
    if lines == [] then 0
    else LinesInGroup(lines[..|lines| - 1], g) + if GroupOfLine(lines[|lines| - 1]) == Some(g) then 1 else 0
  }

  /** A line read as a record holds that record's sport, result and age. */
  lemma {:induction false} RecordOfData(line: string, r: Record)
    requires ParseRecord(line) == Ok(r)
    ensures r.modality == SportOf(line) && r.passed == FitLine(line) && GroupOfLine(line) == Some(Bucket(r.age))
  {
  }

  /** Record `i` holds the sport, result and age of line `i`. */
  ghost predicate ReadAs(lines: seq<string>, records: seq<Record>) {
    && |lines| == |records|
    && forall i :: 0 <= i < |lines| ==>
         && records[i].modality == SportOf(lines[i]) && records[i].passed == FitLine(lines[i])
         && GroupOfLine(lines[i]) == Some(Bucket(records[i].age))
  }

  lemma {:induction false} RecordsReadAs(lines: seq<string>)
    requires Records(lines).Ok?
    ensures ReadAs(lines, Records(lines).value)
  {
    var records := Records(lines).value;
    forall i | 0 <= i < |lines|
      ensures && records[i].modality == SportOf(lines[i]) && records[i].passed == FitLine(lines[i])
              && GroupOfLine(lines[i]) == Some(Bucket(records[i].age))
    {
      RecordOfLine(lines, i);
      RecordOfData(lines[i], records[i]);
    }
  }

  /** The fit count of the tally is the number of lines of fit athletes. */
  lemma {:induction false} FitCount(lines: seq<string>, records: seq<Record>)
    requires ReadAs(lines, records)
    ensures Count(TallyOfRecords(records).results, true) == FitLines(lines)
  {
    if lines != [] {
      var n := |lines| - 1;
      var init := records[..n];
      assert ReadAs(lines[..n], init);
      FitCount(lines[..n], init);
      var rs := TallyOfRecords(init).results;
      assert TallyOfRecords(records).results == rs + [records[n].passed];
      assert (rs + [records[n].passed])[..|rs|] == rs;
    }
  }

  /** The records of an age group are the lines whose age falls in it. */
  lemma {:induction false} GroupCountOfLines(lines: seq<string>, records: seq<Record>, g: AgeGroup)
    requires ReadAs(lines, records)
    ensures Count(GroupsOf(records), g) == LinesInGroup(lines, g)
  {
    if lines != [] {
      var n := |lines| - 1;
      var init := records[..n];
      assert ReadAs(lines[..n], init);
      GroupCountOfLines(lines[..n], init, g);
      var gs := GroupsOf(init);
      assert GroupsOf(records) == gs + [Bucket(records[n].age)];
      assert (gs + [Bucket(records[n].age)])[..|gs|] == gs;
    }
  }

  /** Record `i` holds the sport of line `i`. */
  ghost predicate SportsRead(lines: seq<string>, records: seq<Record>) {
    |lines| == |records| && forall i :: 0 <= i < |lines| ==> records[i].modality == SportOf(lines[i])
  }

  /** The sports of the summary are exactly those of the lines. */
  lemma {:induction false} SportsOfLines(lines: seq<string>, records: seq<Record>)
    requires SportsRead(lines, records)
    ensures forall m :: m in SummaryOf(records).modalities <==> exists i :: 0 <= i < |lines| && SportOf(lines[i]) == m
  {
    var list := ModalityList(TallyOfRecords(records).modalities);
    assert SummaryOf(records).modalities == list;
    forall m | m in list
      ensures exists i :: 0 <= i < |lines| && SportOf(lines[i]) == m
    {
      ListedIsRecorded(records, m);
      var i :| 0 <= i < |records| && records[i].modality == m;
      assert SportOf(lines[i]) == m;
    }
    forall m | exists i :: 0 <= i < |lines| && SportOf(lines[i]) == m
      ensures m in list
    {
      var i :| 0 <= i < |lines| && SportOf(lines[i]) == m;
      RecordedIsListed(records, i);
    }
  }

  /** Each age group of the summary counts the lines whose age falls in it,
      and the group of every line is in the summary. */
  lemma {:induction false} GroupsOfLines(lines: seq<string>, records: seq<Record>)
    requires ReadAs(lines, records)
    ensures var s := SummaryOf(records);
      && (forall j :: 0 <= j < |s.groups| ==> 0 < s.groups[j].count == LinesInGroup(lines, s.groups[j].group))
      && (forall i :: 0 <= i < |lines| ==>
            GroupOfLine(lines[i]).Some? && exists j :: 0 <= j < |s.groups| && s.groups[j].group == GroupOfLine(lines[i]).value)
  {
    var s := SummaryOf(records);
    var t := TallyOfRecords(records);
    TallyGroupsWellFormed(records);
    forall j | 0 <= j < |s.groups|
      ensures 0 < s.groups[j].count == LinesInGroup(lines, s.groups[j].group)
    {
      var g := s.groups[j].group;
      DistributionCounts(records, g);
      GroupCountOfLines(lines, records, g);
    }
    forall i | 0 <= i < |lines|
      ensures GroupOfLine(lines[i]).Some?
      ensures exists j :: 0 <= j < |s.groups| && s.groups[j].group == GroupOfLine(lines[i]).value
    {
      TallyEntries(records, i);
      GroupsInOrderListsAll(t.distribution, Bucket(records[i].age));
    }
  }

  /** What the program prints about a file that it reads to the end: one
      athlete per data line; the fit athletes are the lines whose column 12
      reads "true" in any case; the sports are exactly those of column 8;
      each age group printed counts the lines whose column-5 age falls in
      it, and the group of every line is printed. */
  lemma {:induction false} SummaryFacts(file: seq<string>)
    requires Summarize(file).Ok?
    ensures var s, lines := Summarize(file).value, DataLines(file);
      && s.total == |lines|
      && s.passed == FitLines(lines)
      && (forall m :: m in s.modalities <==> exists i :: 0 <= i < |lines| && SportOf(lines[i]) == m)
      && (forall j :: 0 <= j < |s.groups| ==> 0 < s.groups[j].count == LinesInGroup(lines, s.groups[j].group))
      && (forall i :: 0 <= i < |lines| ==>
            GroupOfLine(lines[i]).Some? && exists j :: 0 <= j < |s.groups| && s.groups[j].group == GroupOfLine(lines[i]).value)
  {
    var lines := DataLines(file);
    var records := Records(lines).value;
    assert Summarize(file).value == SummaryOf(records);
    RecordsReadAs(lines);
    FitCount(lines, records);
    SportsOfLines(lines, records);
    GroupsOfLines(lines, records);
  }
}
