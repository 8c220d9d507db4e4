/** The line-by-line Markdown-to-HTML converter: six recognisers tried in a
    fixed order, the HTML element each one emits, and the list state carried
    from line to line that opens, switches and closes the `<ul>`/`<ol>`
    wrappers. */
module Markdown {
  import opened Common

  datatype ListType = Ordered | Unordered

  /** What a recogniser finds in a line: the tuples and strings that the
      `maybe_match_markdown_*` functions return. */
  datatype Found =
    | Title(content: string, level: nat)
    | Bold(content: string)
    | Italic(content: string)
    | Image(alt: string, url: string)
    | Link(text: string, url: string)
    | Item(content: string, listType: ListType)

  /** The part of `line` that a pattern ending in `$` covers: `$` matches at
      the end of the line or just before one final newline. */
  function Body(line: string): (b: string)
    ensures b == line || b + "\n" == line
  {
    if line != [] && line[|line| - 1] == '\n' then line[..|line| - 1] else line
  }

  /** The number of copies of `c` in `s` from index `i` on. */
  function RunOf(s: string, i: nat, c: char): (n: nat)
    requires i <= |s|
    ensures i + n <= |s| && (i + n == |s| || s[i + n] != c)
    ensures forall k :: i <= k < i + n ==> s[k] == c
    decreases |s| - i
  {
    if i < |s| && s[i] == c then 1 + RunOf(s, i + 1, c) else 0
  }

  /** The number of characters other than `c` in `s` from index `i` on,
      up to the first `c`: the greedy `[^c]+`. */
  function RunBefore(s: string, i: nat, c: char): (n: nat)
    requires i <= |s|
    ensures i + n <= |s| && (i + n == |s| || s[i + n] == c)
    decreases |s| - i
  {
    if i < |s| && s[i] != c then 1 + RunBefore(s, i + 1, c) else 0
  }

  /** The run holds no `c`. */
  lemma {:induction false} RunBeforeMeaning(s: string, i: nat, c: char)
    requires i <= |s|
    ensures forall k :: i <= k < i + RunBefore(s, i, c) ==> s[k] != c
    decreases |s| - i
  {
    if i < |s| && s[i] != c {
      RunBeforeMeaning(s, i + 1, c);
    }
  }

  /** `maybe_match_markdown_title`, `^(#+)(.+)$`: the leading `#`s give the
      level, at least one character must follow them on the same line, and
      what follows is stripped. On a line of `#`s only, the last one is the
      text. */
  function MatchTitle(line: string): (r: Option<Found>)
    ensures r.Some? ==> r.value.Title? && r.value.level >= 1 && Stripped(r.value.content)
  {
    TitleIn(Body(line))
  }

  function TitleIn(b: string): (r: Option<Found>)
    ensures r.Some? ==> r.value.Title? && r.value.level >= 1 && Stripped(r.value.content)
  {
    var hashes := RunOf(b, 0, '#');
    if hashes == 0 || '\n' in b then None
    else if hashes < |b| then Some(Title(Strip(b[hashes..]), hashes))
    else if hashes >= 2 then Some(Title("#", hashes - 1))
    else None
  }

  /** A title is a line of at least two characters that starts with `#`;
      its level counts the leading `#`s (all but the last on a line of `#`s
      only), and its text is the rest, stripped. */
  lemma {:induction false} TitleMeaning(line: string)
    ensures MatchTitle(line).Some? <==> var b := Body(line); |b| >= 2 && b[0] == '#' && '\n' !in b
    ensures MatchTitle(line).Some? ==>
      var b, r := Body(line), MatchTitle(line).value;
      && 1 <= r.level < |b|
      && (forall k :: 0 <= k < r.level ==> b[k] == '#')
      && (r.level == |b| - 1 || b[r.level] != '#')
      && r.content == Strip(b[r.level..])
  {
    TitleInMeaning(Body(line));
  }

  lemma {:induction false} TitleInMeaning(b: string)
    ensures TitleIn(b).Some? <==> |b| >= 2 && b[0] == '#' && '\n' !in b
    ensures TitleIn(b).Some? ==>
      var r := TitleIn(b).value;
      && 1 <= r.level < |b|
      && (forall k :: 0 <= k < r.level ==> b[k] == '#')
      && (r.level == |b| - 1 || b[r.level] != '#')
      && r.content == Strip(b[r.level..])
  {
    var hashes := RunOf(b, 0, '#');
    if hashes == |b| && hashes >= 2 {
      assert b[hashes - 1..] == "#";
      StripKeeps("#");
    }
  }

  /** `maybe_match_markdown_bold`, `^(\*\*|__)([^\*]*?)\1$`: the same
      two-character delimiter opens and closes the line and the text between
      them holds no `*`; the text is stripped. */
  function MatchBold(line: string): (r: Option<Found>)
    ensures r.Some? ==> r.value.Bold? && Stripped(r.value.content)
  {
    var b := Body(line);
    if |b| >= 4 && b[..2] in ["**", "__"] && b[|b| - 2..] == b[..2] && '*' !in b[2..|b| - 2] then
      Some(Bold(Strip(b[2..|b| - 2])))
    else None
  }

  lemma {:induction false} BoldMeaning(line: string)
    ensures MatchBold(line).Some? <==>
      var b := Body(line);
      |b| >= 4 && b[..2] in ["**", "__"] && b[|b| - 2..] == b[..2] && '*' !in b[2..|b| - 2]
    ensures MatchBold(line).Some? ==>
      var b := Body(line);
      MatchBold(line).value.content == Strip(b[2..|b| - 2]) && '*' !in MatchBold(line).value.content
  {
    var b := Body(line);
    if |b| >= 4 {
      StripIsInside(b[2..|b| - 2]);
    }
  }

  /** `maybe_match_markdown_italic`, `^(\*|_)([^*]*?)\1$`: the same
      one-character delimiter opens and closes the line and the text between
      them holds no `*`; the text is stripped. */
  function MatchItalic(line: string): (r: Option<Found>)
    ensures r.Some? ==> r.value.Italic? && Stripped(r.value.content)
  {
    var b := Body(line);
    if |b| >= 2 && b[0] in "*_" && b[|b| - 1] == b[0] && '*' !in b[1..|b| - 1] then
      Some(Italic(Strip(b[1..|b| - 1])))
    else None
  }

  lemma {:induction false} ItalicMeaning(line: string)
    ensures MatchItalic(line).Some? <==>
      var b := Body(line);
      |b| >= 2 && b[0] in "*_" && b[|b| - 1] == b[0] && '*' !in b[1..|b| - 1]
    ensures MatchItalic(line).Some? ==>
      var b := Body(line);
      MatchItalic(line).value.content == Strip(b[1..|b| - 1]) && '*' !in MatchItalic(line).value.content
  {
    var b := Body(line);
    if |b| >= 2 {
      StripIsInside(b[1..|b| - 1]);
    }
  }

  /** `\[([^\]]+)\]\(([^)]+)\)` at index `i` of `line`: a non-empty text
      without `]` in brackets, then a non-empty URL without `)` in
      parentheses. The pattern has no `$`, so the rest of the line is free. */
  function MatchLinkAt(line: string, i: nat): (r: Option<Found>)
    requires i <= |line|
    ensures r.Some? ==> r.value.Link?
  {
    if i < |line| && line[i] == '[' then
      var t := RunBefore(line, i + 1, ']');
      var close := i + 1 + t;
      if t > 0 && close + 1 < |line| && line[close + 1] == '(' then
        var u := RunBefore(line, close + 2, ')');
        var end := close + 2 + u;
        if u > 0 && end < |line| then
          Some(Link(line[i + 1..close], line[close + 2..end]))
        else None
      else None
    else None
  }

  /** What `MatchLinkAt` finds is spelled as a link from `i`. */
  lemma {:induction false} MatchLinkAtSpelled(line: string, i: nat)
    requires i <= |line|
    ensures var r := MatchLinkAt(line, i);
      r.Some? ==> LinkSpelled(line, i, r.value.text, r.value.url)
  {
    if i < |line| && line[i] == '[' {
      var t := RunBefore(line, i + 1, ']');
      var close := i + 1 + t;
      if t > 0 && close + 1 < |line| && line[close + 1] == '(' {
        var u := RunBefore(line, close + 2, ')');
        var end := close + 2 + u;
        if u > 0 && end < |line| {
          RunBeforeMeaning(line, i + 1, ']');
          RunBeforeMeaning(line, close + 2, ')');
          var text, url := line[i + 1..close], line[close + 2..end];
          assert MatchLinkAt(line, i) == Some(Link(text, url));
          SpellLink(line, i, close, end);
          assert LinkSpelled(line, i, text, url);
        }
      }
    }
  }

  /** `line` spells, from index `i`, the link `[text](url)`, with a
      non-empty text without `]` and a non-empty URL without `)`. */
  predicate LinkSpelled(line: string, i: nat, text: string, url: string) {
    && text != [] && url != [] && ']' !in text && ')' !in url
    && i + |text| + |url| + 4 <= |line|
    && line[i..i + |text| + |url| + 4] == "[" + text + "](" + url + ")"
  }

  lemma {:induction false} SpellLink(line: string, i: nat, close: nat, end: nat)
    requires i + 1 < close && close + 2 < end < |line|
    requires line[i] == '[' && line[close + 1] == '(' && line[end] == ')'
    requires line[close] == ']'
    requires forall k :: i + 1 <= k < close ==> line[k] != ']'
    requires forall k :: close + 2 <= k < end ==> line[k] != ')'
    ensures LinkSpelled(line, i, line[i + 1..close], line[close + 2..end])
  {
    assert ']' !in line[i + 1..close] && ')' !in line[close + 2..end];
    SliceJoin(line, i, i + 1, close);
    SliceJoin(line, i, close, close + 2);
    SliceJoin(line, i, close + 2, end);
    SliceJoin(line, i, end, end + 1);
    assert line[i..i + 1] == "[" && line[close..close + 2] == "](" && line[end..end + 1] == ")";
  }

  lemma {:induction false} SliceJoin(s: string, i: nat, j: nat, k: nat)
    requires i <= j <= k <= |s|
    ensures s[i..k] == s[i..j] + s[j..k]
  {
  }

  /** `maybe_match_markdown_image`: `!` followed by the shape of a link. */
  function MatchImage(line: string): (r: Option<Found>)
    ensures r.Some? ==> r.value.Image? && line != [] && line[0] == '!' && LinkSpelled(line, 1, r.value.alt, r.value.url)
  {
    if line != [] && line[0] == '!' then
      MatchLinkAtSpelled(line, 1);
      match MatchLinkAt(line, 1)
      case Some(link) => Some(Image(link.text, link.url))
      case None => None
    else None
  }

  /** `maybe_match_markdown_link`: the shape of a link at the start of the line. */
  function MatchLink(line: string): (r: Option<Found>)
    ensures r.Some? ==> r.value.Link? && LinkSpelled(line, 0, r.value.text, r.value.url)
  {
    MatchLinkAtSpelled(line, 0);
    MatchLinkAt(line, 0)
  }

  /** An image line starts with `!` and the shape of a link. */
  lemma {:induction false} ImageMeaning(line: string)
    ensures MatchImage(line).Some? ==>
      var alt, url := MatchImage(line).value.alt, MatchImage(line).value.url;
      && alt != [] && url != [] && ']' !in alt && ')' !in url
      && |alt| + |url| + 5 <= |line|
      && line[..|alt| + |url| + 5] == "![" + alt + "](" + url + ")"
  {
    if line != [] && line[0] == '!' {
      MatchLinkAtSpelled(line, 1);
      match MatchLinkAt(line, 1)
      case Some(link) =>
        var n := |link.text| + |link.url| + 5;
        assert line[..n] == "!" + line[1..n];
      case None =>
    }
  }

  /** `maybe_match_markdown_list_item`, `^(\d+\.|[*+-]) (.+)$`: a marker
      (digits and a dot for an ordered list, one of `*`, `+`, `-` for an
      unordered one), one space, then a non-empty text up to the end of the
      line, kept as it is. */
  function MatchItem(line: string): (r: Option<Found>)
    ensures r.Some? ==> r.value.Item? && r.value.content != [] && '\n' !in r.value.content
  {
    var b := Body(line);
    var digits := DigitsFrom(b, 0);
    var ordered := digits > 0 && digits < |b| && b[digits] == '.';
    var marker := if ordered then digits + 1 else if b != [] && b[0] in "*+-" then 1 else 0;
    if marker > 0 && marker + 1 < |b| && b[marker] == ' ' && '\n' !in b then
      Some(Item(b[marker + 1..], if ordered then Ordered else Unordered))
    else None
  }

  /** A list item is its marker, one space and a non-empty text, all on one
      line; the list is ordered exactly when the marker is digits and a dot,
      and unordered exactly when it is one of `*`, `+`, `-`. */
  lemma {:induction false} ItemMeaning(line: string)
    ensures MatchItem(line).Some? ==>
      var b, item := Body(line), MatchItem(line).value;
      var m := |b| - |item.content| - 1;
      && item.content != [] && '\n' !in b && 1 <= m
      && b == b[..m] + " " + item.content
      && (item.listType == Ordered <==> m >= 2 && AllDigits(b[..m - 1]) && b[m - 1] == '.')
      && (item.listType == Unordered <==> m == 1 && b[0] in "*+-")
  {
    var b := Body(line);
    DigitsFromMeaning(b, 0);
    if MatchItem(line).Some? {
      var m := |b| - |MatchItem(line).value.content| - 1;
      assert b == b[..m] + " " + b[m + 1..];
    }
  }

  /** An HTML element: the opening tag `name` with its attributes, the
      content, and the closing tag of the same name. */
  predicate IsElement(html: string, name: string, attributes: string, content: string) {
    html == "<" + name + attributes + ">" + content + "</" + name + ">"
  }

  /** An HTML attribute `name="value"`, with its leading space. */
  function Attribute(name: string, value: string): string {
    " " + name + "=\"" + value + "\""
  }

  /** The content of an element is what lies between its two tags. */
  lemma {:induction false} ElementContent(html: string, name: string, attributes: string, content: string)
    requires IsElement(html, name, attributes, content)
    ensures var open := |name| + |attributes| + 2;
      open + |content| + |name| + 3 == |html| && html[open..|html| - |name| - 3] == content
  {
    var open := |name| + |attributes| + 2;
    assert html == ("<" + name + attributes + ">") + content + ("</" + name + ">");
  }

  function HtmlHeader(content: string, level: nat): (r: string)
    ensures IsElement(r, "h" + NatToString(level), "", content)
  {
    "<h" + NatToString(level) + ">" + content + "</h" + NatToString(level) + ">"
  }

  function HtmlBold(content: string): (r: string)
    ensures IsElement(r, "b", "", content)
  {
    "<b>" + content + "</b>"
  }

  function HtmlItalic(content: string): (r: string)
    ensures IsElement(r, "i", "", content)
  {
    "<i>" + content + "</i>"
  }

  /** An image is an empty element: the URL and the alternative text are
      its attributes. */
  function HtmlImage(content: string, url: string): (r: string)
    ensures r == "<img" + Attribute("src", url) + Attribute("alt", content) + ">"
  {
    "<img src=\"" + url + "\" alt=\"" + content + "\">"
  }

  function HtmlLink(content: string, url: string): (r: string)
    ensures IsElement(r, "a", Attribute("href", url), content)
  {
    "<a href=\"" + url + "\">" + content + "</a>"
  }

  function HtmlItem(content: string): (r: string)
    ensures IsElement(r, "li", "", content)
  {
    "<li>" + content + "</li>"
  }

  /** The element name of a list of type `t`. */
  function ListName(t: ListType): string {
    if t == Unordered then "ul" else "ol"
  }

  function HtmlStartList(t: ListType): string {
    if t == Unordered then "<ul>" else "<ol>"
  }

  function HtmlEndList(t: ListType): string {
    if t == Unordered then "</ul>" else "</ol>"
  }

  /** The list tags open and close the element named after the list type. */
  lemma {:induction false} ListTags(t: ListType)
    ensures HtmlStartList(t) == "<" + ListName(t) + ">"
    ensures HtmlEndList(t) == "</" + ListName(t) + ">"
  {
  }

  /** A list opened and closed with the same type is one element around
      its items. */
  lemma {:induction false} ListIsElement(t: ListType, items: string)
    ensures IsElement(HtmlStartList(t) + items + HtmlEndList(t), ListName(t), "", items)
  {
    ListTags(t);
  }

  /** The `create_html_*` function paired with each recogniser, applied to
      what the recogniser found. */
  function Emit(f: Found): (r: string)
    ensures f.Title? ==> IsElement(r, "h" + NatToString(f.level), "", f.content)
    ensures f.Bold? ==> IsElement(r, "b", "", f.content)
    ensures f.Italic? ==> IsElement(r, "i", "", f.content)
    ensures f.Image? ==> r == "<img" + Attribute("src", f.url) + Attribute("alt", f.alt) + ">"
    ensures f.Link? ==> IsElement(r, "a", Attribute("href", f.url), f.text)
    ensures f.Item? ==> IsElement(r, "li", "", f.content)
  {
    match f
    case Title(content, level) => HtmlHeader(content, level)
    case Bold(content) => HtmlBold(content)
    case Italic(content) => HtmlItalic(content)
    case Image(alt, url) => HtmlImage(alt, url)
    case Link(text, url) => HtmlLink(text, url)
    case Item(content, _) => HtmlItem(content)
  }

  /** The recognisers of `process_markdown_line`, in their order. */
  const Recognisers := 6

  /** The `maybe_match_markdown_*` functions in the order the loop tries them. */
  const Matchers: seq<string -> Option<Found>> := [MatchTitle, MatchBold, MatchItalic, MatchImage, MatchLink, MatchItem]

  function Recognise(k: nat, line: string): Option<Found>
    requires k < Recognisers
  {
    Matchers[k](line)
  }

  /** Python's truthiness of a recogniser's result: a tuple always, a string
      only when it is not empty. */
  predicate Truthy(f: Found) {
    match f
    case Bold(content) => content != []
    case Italic(content) => content != []
    case _ => true
  }

  /** Recogniser `k` produces output for `line` (`if match:`). */
  predicate Hits(k: nat, line: string)
    requires k < Recognisers
  {
    Recognise(k, line).Some? && Truthy(Recognise(k, line).value)
  }

  /** The first recogniser from the `k`-th on that hits `line`. */
  function FirstHit(line: string, k: nat): (r: Option<nat>)
    requires k <= Recognisers
    ensures r.Some? ==> k <= r.value < Recognisers && Hits(r.value, line)
    ensures forall j :: k <= j < Recognisers && (r.None? || j < r.value) ==> !Hits(j, line)
    decreases Recognisers - k
  {
    if k == Recognisers then None
    else if Hits(k, line) then Some(k)
    else FirstHit(line, k + 1)
  }

  /** The list type of a list item, `None` for every other element. */
  function ItemType(f: Found): (t: Option<ListType>)
    ensures t.Some? <==> f.Item?
  {
    if f.Item? then Some(f.listType) else None
  }

  /** A list wrapper tag written before an element. */
  datatype Tag = Start(listType: ListType) | End(listType: ListType)

  function TagHtml(t: Tag): string {
    match t
    case Start(l) => HtmlStartList(l)
    case End(l) => HtmlEndList(l)
  }

  function TagsHtml(ts: seq<Tag>): string {
    if ts == [] then "" else TagHtml(ts[0]) + TagsHtml(ts[1..])
  }

  /** Starting with the list `inside` open (or none), the wrapper tags `ts`
      open a list only when none is open, close only the list that is open,
      and leave `final` open. */
  predicate Bracketed(inside: Option<ListType>, ts: seq<Tag>, final: Option<ListType>)
    decreases |ts|
  {
    if ts == [] then inside == final
    else match ts[0]
      case Start(t) => inside.None? && Bracketed(Some(t), ts[1..], final)
      case End(t) => inside == Some(t) && Bracketed(None, ts[1..], final)
  }

  /** The wrapper tags written before an element, and the list state after
      it. */
  datatype Wrapped = Wrapped(tags: seq<Tag>, inside: Option<ListType>)

  /** Lines 125-136 as written: switching from one list type to the other
      puts the new start tag BEFORE the old end tag. */
  function WrapAsWritten(inside: Option<ListType>, item: Option<ListType>): (w: Wrapped)
    ensures w.inside == item
  {
    if inside.Some? && item.None? then Wrapped([End(inside.value)], None)
    else if inside.None? && item.Some? then Wrapped([Start(item.value)], item)
    else if inside.Some? && item.Some? && inside != item then
      Wrapped([Start(item.value), End(inside.value)], item)
    else Wrapped([], inside)
  }

  /** The list wrapping with the old list closed before the new one opens.
      After any element the open list is exactly the element's own list
      type, the tags are well bracketed, and none are written when the state
      does not change. */
  function Wrap(inside: Option<ListType>, item: Option<ListType>): (w: Wrapped)
    ensures w.inside == item
    ensures Bracketed(inside, w.tags, w.inside)
    ensures w.tags == [] <==> inside == item
  {
    if inside.Some? && item.None? then Wrapped([End(inside.value)], None)
    else if inside.None? && item.Some? then Wrapped([Start(item.value)], item)
    else if inside.Some? && item.Some? && inside != item then
      Wrapped([End(inside.value), Start(item.value)], item)
    else Wrapped([], inside)
  }

  /** An element of one list type arrives while a list of the other type is
      open. */
  predicate Switches(inside: Option<ListType>, item: Option<ListType>) {
    inside.Some? && item.Some? && inside != item
  }

  /** The code writes the same tags as the corrected wrapping, and in the
      same order except on a switch between the two list types. */
  lemma {:induction false} WrapAsWrittenReorders(inside: Option<ListType>, item: Option<ListType>)
    ensures multiset(WrapAsWritten(inside, item).tags) == multiset(Wrap(inside, item).tags)
    ensures WrapAsWritten(inside, item) == Wrap(inside, item) <==> !Switches(inside, item)
  {
    if Switches(inside, item) {
      var w, c := WrapAsWritten(inside, item).tags, Wrap(inside, item).tags;
      assert w[0] != c[0];
    }
  }

  /** Which list wrapping a conversion uses: the tags in the order the code
      writes them, or the corrected order. */
  datatype Wrapping = AsWritten | Corrected

  function WrapBy(how: Wrapping, inside: Option<ListType>, item: Option<ListType>): (w: Wrapped)
    ensures w.inside == item
    ensures how == Corrected ==> Bracketed(inside, w.tags, w.inside)
  {
    if how == AsWritten then WrapAsWritten(inside, item) else Wrap(inside, item)
  }

  /** What one line contributes: wrapper tags, then the element (or the line
      itself when no recogniser hits it), and the list state after it. */
  datatype Step = Step(tags: seq<Tag>, piece: string, inside: Option<ListType>)

  function LineStep(line: string, inside: Option<ListType>, how: Wrapping): (s: Step)
    ensures how == Corrected ==> Bracketed(inside, s.tags, s.inside)
  {
    match FirstHit(line, 0)
    case None => Step([], line, inside)
    case Some(k) =>
      var f := Recognise(k, line).value;
      var w := WrapBy(how, inside, ItemType(f));
      Step(w.tags, Emit(f), w.inside)
  }

  /** A line takes both wrappings to the same list state, and to the same
      output unless it switches list type. */
  lemma {:induction false} LineStepAgrees(line: string, inside: Option<ListType>)
    ensures LineStep(line, inside, AsWritten).inside == LineStep(line, inside, Corrected).inside
    ensures !Switches(inside, LineStep(line, inside, Corrected).inside)
        ==> LineStep(line, inside, AsWritten) == LineStep(line, inside, Corrected)
    ensures multiset(LineStep(line, inside, AsWritten).tags) == multiset(LineStep(line, inside, Corrected).tags)
  {
    if FirstHit(line, 0).Some? {
      var k := FirstHit(line, 0).value;
      WrapAsWrittenReorders(inside, ItemType(Recognise(k, line).value));
    }
  }

  datatype Processed = Processed(html: string, inside: Option<ListType>)

  /** `process_markdown_line` as a function of the html so far and the list
      state, with the given wrapping. */
  function Process(line: string, html: string, inside: Option<ListType>, how: Wrapping): (p: Processed)
    ensures html <= p.html
  {
    var s := LineStep(line, inside, how);
    Processed(html + (TagsHtml(s.tags) + s.piece), s.inside)
  }

  /** `process_markdown_line`: tries the recognisers in order and lets the
      first one that hits emit its element, with the list wrappers before
      it; a line that no recogniser hits is appended as it is. */
  method ProcessLine(line: string, html: string, inside: Option<ListType>)
    returns (html': string, inside': Option<ListType>)
    ensures Processed(html', inside') == Process(line, html, inside, AsWritten)
  {
    for k := 0 to Recognisers
      invariant FirstHit(line, k) == FirstHit(line, 0)
    {
      var found := Recognise(k, line);
      if found.Some? && Truthy(found.value) {
        assert FirstHit(line, 0) == Some(k);
        html', inside' := EmitFirstHit(line, k, html, inside);
        return;
      }
    }
    html', inside' := html + line, inside;
  }

  /** The body of `process_markdown_line`'s loop for the recogniser that
      hits first: its element, with the list wrappers before it. */
  method EmitFirstHit(line: string, k: nat, html: string, inside: Option<ListType>)
    returns (html': string, inside': Option<ListType>)
    requires k < Recognisers && FirstHit(line, 0) == Some(k)
    ensures Processed(html', inside') == Process(line, html, inside, AsWritten)
  {
    var found := Recognise(k, line).value;
    var newHtml;
    newHtml, inside' := WrapElement(Emit(found), inside, ItemType(found));
    html' := html + newHtml;
  }

  /** The list handling of `process_markdown_line`: an element that is not
      a list item closes the open list, the first item opens a list of its
      type, and an item of the other type prepends the old list's end tag
      and then the new list's start tag, so the start tag comes first. */
  method WrapElement(element: string, inside: Option<ListType>, item: Option<ListType>)
    returns (newHtml: string, inside': Option<ListType>)
    ensures newHtml == TagsHtml(WrapAsWritten(inside, item).tags) + element
    ensures inside' == WrapAsWritten(inside, item).inside
  {
    newHtml, inside' := element, inside;
    if inside'.Some? && item.None? {
      newHtml := HtmlEndList(inside'.value) + newHtml;
      inside' := None;
    }
    if inside'.None? && item.Some? {
      inside' := item;
      newHtml := HtmlStartList(item.value) + newHtml;
    }
    if inside'.Some? && item.Some? && inside' != item {
      newHtml := HtmlEndList(inside'.value) + newHtml;
      newHtml := HtmlStartList(item.value) + newHtml;
      inside' := item;
    }
  }

  /** `main`: the lines processed in order, from the html so far and the
      list state, with the given wrapping. */
  function ConvertFrom(lines: seq<string>, html: string, inside: Option<ListType>, how: Wrapping): (p: Processed)
    ensures html <= p.html
    decreases |lines|
  {
    if lines == [] then Processed(html, inside)
    else
      var p := Process(lines[0], html, inside, how);
      ConvertFrom(lines[1..], p.html, p.inside, how)
  }

  /** `main`: every line processed in order from an empty document with no
      list open. */
  method Convert(lines: seq<string>) returns (html: string)
    ensures html == ConvertFrom(lines, "", None, AsWritten).html
  {
    html := "";
    var inside: Option<ListType> := None;
    for i := 0 to |lines|
      invariant ConvertFrom(lines[i..], html, inside, AsWritten) == ConvertFrom(lines, "", None, AsWritten)
    {
      assert lines[i..][1..] == lines[i + 1..];
      html, inside := ProcessLine(lines[i], html, inside);
    }
  }

  // Reading back what a writer of Markdown puts on a line.

  function Hashes(n: nat): (s: string)
    ensures |s| == n && forall k :: 0 <= k < n ==> s[k] == '#'
  {
    seq(n, _ => '#')
  }

  /** A line of `level` hashes, a space and a stripped one-line text is read
      as a title of that level with that text. */
  lemma {:induction false} TitleRoundTrip(level: nat, text: string)
    requires level >= 1 && text != [] && Stripped(text) && '\n' !in text
    ensures MatchTitle(Hashes(level) + " " + text + "\n") == Some(Title(text, level))
  {
    var b := Hashes(level) + " " + text;
    BodyDropsNewline(b);
    HashesThenText(level, text);
    StripSpaceThen(text);
  }

  lemma {:induction false} BodyDropsNewline(s: string)
    ensures Body(s + "\n") == s
  {
    assert (s + "\n")[..|s|] == s;
  }

  lemma {:induction false} HashesThenText(level: nat, text: string)
    requires '\n' !in text
    ensures var b := Hashes(level) + " " + text;
      RunOf(b, 0, '#') == level && '\n' !in b && b[level..] == " " + text
  {
    var b := Hashes(level) + " " + text;
    assert b[level] == ' ';
    assert forall k :: 0 <= k < |b| ==> b[k] == '#' || b[k] == ' ' || b[k] in text;
    assert b[level..] == " " + text;
  }

  lemma {:induction false} StripSpaceThen(text: string)
    requires text != [] && Stripped(text)
    ensures Strip(" " + text) == text
  {
    assert (" " + text)[1..] == text;
    StripKeeps(text);
  }

  /** A text without `*` between two equal bold delimiters is read as bold. */
  lemma {:induction false} BoldRoundTrip(delimiter: string, text: string)
    requires delimiter in ["**", "__"] && text != [] && Stripped(text) && '*' !in text
    ensures MatchBold(delimiter + text + delimiter + "\n") == Some(Bold(text))
  {
    var line := delimiter + text + delimiter + "\n";
    var b := delimiter + text + delimiter;
    assert line[..|line| - 1] == b;
    assert b[..2] == delimiter && b[|b| - 2..] == delimiter && b[2..|b| - 2] == text;
    StripKeeps(text);
  }

  /** A text without `*` between two equal italic delimiters is read as
      italic. */
  lemma {:induction false} ItalicRoundTrip(delimiter: char, text: string)
    requires delimiter in "*_" && text != [] && Stripped(text) && '*' !in text
    ensures MatchItalic([delimiter] + text + [delimiter] + "\n") == Some(Italic(text))
  {
    var line := [delimiter] + text + [delimiter] + "\n";
    var b := [delimiter] + text + [delimiter];
    assert line[..|line| - 1] == b;
    assert b[1..|b| - 1] == text;
    StripKeeps(text);
  }

  /** `[text](url)` is read back as that link, whatever follows it. */
  lemma {:induction false} LinkRoundTrip(text: string, url: string, rest: string)
    requires text != [] && ']' !in text && url != [] && ')' !in url
    ensures MatchLink("[" + text + "](" + url + ")" + rest) == Some(Link(text, url))
  {
    var link := "[" + text + "](" + url + ")";
    var line := link + rest;
    assert line[..|link|] == link;
    LinkSpelledIsRead(line, 0, text, url);
  }

  /** `![alt](url)` is read back as that image, whatever follows it. */
  lemma {:induction false} ImageRoundTrip(alt: string, url: string, rest: string)
    requires alt != [] && ']' !in alt && url != [] && ')' !in url
    ensures MatchImage("![" + alt + "](" + url + ")" + rest) == Some(Image(alt, url))
  {
    var link := "[" + alt + "](" + url + ")";
    var line := "![" + alt + "](" + url + ")" + rest;
    assert line == "!" + link + rest;
    assert line[1..1 + |link|] == link;
    LinkSpelledIsRead(line, 1, alt, url);
  }

  /** Whatever spells a link at `i` is read as that link: together with the
      contract of `MatchLinkAt`, a link is found exactly where one is
      spelled. */
  lemma {:induction false} LinkSpelledIsRead(line: string, i: nat, text: string, url: string)
    requires LinkSpelled(line, i, text, url)
    ensures MatchLinkAt(line, i) == Some(Link(text, url))
  {
    var close := i + 1 + |text|;
    var end := close + 2 + |url|;
    LinkSpelledParts(line, i, text, url);
    forall k | i + 1 <= k < close
      ensures line[k] != ']'
    {
      assert line[k] == text[k - i - 1];
    }
    forall k | close + 2 <= k < end
      ensures line[k] != ')'
    {
      assert line[k] == url[k - close - 2];
    }
    RunBeforeStops(line, i + 1, ']', close - i - 1);
    RunBeforeStops(line, close + 2, ')', end - close - 2);
    LinkPartsAreRead(line, i, close, end);
  }

  /** The brackets, parentheses and their contents, laid out one after the
      other from `i`, are read as the link they delimit. */
  lemma {:induction false} LinkPartsAreRead(line: string, i: nat, close: nat, end: nat)
    requires i + 1 < close && close + 2 < end < |line|
    requires line[i] == '[' && line[close] == ']' && line[close + 1] == '(' && line[end] == ')'
    requires RunBefore(line, i + 1, ']') == close - i - 1 && RunBefore(line, close + 2, ')') == end - close - 2
    ensures MatchLinkAt(line, i) == Some(Link(line[i + 1..close], line[close + 2..end]))
  {
  }

  lemma {:induction false} LinkSpelledParts(line: string, i: nat, text: string, url: string)
    requires LinkSpelled(line, i, text, url)
    ensures var close := i + 1 + |text|; var end := close + 2 + |url|;
      && end < |line|
      && line[i] == '[' && line[close] == ']' && line[close + 1] == '(' && line[end] == ')'
      && line[i + 1..close] == text && line[close + 2..end] == url
  {
    var w := "[" + text + "](" + url + ")";
    var close := i + 1 + |text|;
    var end := close + 2 + |url|;
    assert forall k :: 0 <= k < |w| ==> line[i + k] == w[k] by {
      assert line[i..end + 1] == w;
    }
    assert line[i + 1..close] == text by {
      assert forall k :: 0 <= k < |text| ==> line[i + 1 + k] == w[1 + k] == text[k];
    }
    assert line[close + 2..end] == url by {
      assert forall k :: 0 <= k < |url| ==> line[close + 2 + k] == w[3 + |text| + k] == url[k];
    }
    assert line[i] == w[0] && line[close] == w[1 + |text|] && line[close + 1] == w[2 + |text|] && line[end] == w[|w| - 1];
  }

  /** The run of characters other than `c` from `i` is exactly `n` long when
      it ends at a `c`. */
  lemma {:induction false} RunBeforeStops(s: string, i: nat, c: char, n: nat)
    requires i + n < |s| && s[i + n] == c
    requires forall k :: i <= k < i + n ==> s[k] != c
    ensures RunBefore(s, i, c) == n
  {
    RunBeforeMeaning(s, i, c);
  }

  /** A bullet, a space and a one-line text are read as an unordered item. */
  lemma {:induction false} UnorderedItemRoundTrip(bullet: char, text: string)
    requires bullet in "*+-" && text != [] && '\n' !in text
    ensures MatchItem([bullet] + " " + text + "\n") == Some(Item(text, Unordered))
  {
    var b := [bullet] + " " + text;
    BodyDropsNewline(b);
    assert '\n' !in b by {
      assert forall k :: 0 <= k < |b| ==> b[k] == bullet || b[k] == ' ' || b[k] in text;
    }
    assert b[2..] == text;
  }

  /** A number, a dot, a space and a one-line text are read as an ordered
      item. */
  lemma {:induction false} OrderedItemRoundTrip(n: nat, text: string)
    requires text != [] && '\n' !in text
    ensures MatchItem(NatToString(n) + ". " + text + "\n") == Some(Item(text, Ordered))
  {
    var digits := NatToString(n);
    var b := digits + ". " + text;
    BodyDropsNewline(b);
    DigitsFromRun(b, 0, |digits|);
    assert '\n' !in b by {
      assert forall k :: 0 <= k < |b| ==> IsDigit(b[k]) || b[k] == '.' || b[k] == ' ' || b[k] in text;
    }
    assert b[|digits| + 2..] == text;
  }

  // The list wrappers.

  /** `Wrap` writes the fewest tags that take the list state from `inside`
      to `item` in a well-bracketed way. */
  lemma {:induction false} WrapIsShortest(inside: Option<ListType>, item: Option<ListType>, tags: seq<Tag>)
    requires Bracketed(inside, tags, item)
    ensures |Wrap(inside, item).tags| <= |tags|
  {
    if inside != item && |tags| == 1 {
      assert inside.Some? && item.Some? ==> !Bracketed(inside, tags, item);
    }
  }

  /** As written, a list item of the other type puts the start tag of the
      new list before the end tag of the old one: `- a` followed by `1. b`
      gives `<ul><li>a</li><ol></ul><li>b</li>`. */
  lemma {:induction false} ListSwitchAsWritten(was: ListType, now: ListType)
    requires was != now
    ensures WrapAsWritten(Some(was), Some(now)).tags == [Start(now), End(was)]
    ensures !Bracketed(Some(was), WrapAsWritten(Some(was), Some(now)).tags, Some(now))
    ensures TagsHtml(WrapAsWritten(Some(Unordered), Some(Ordered)).tags) == "<ol></ul>"
  {
  }

  /** A line that starts with `-`, `+` or a digit is either a list item or
      no element at all: none of the other recognisers hits it. */
  lemma {:induction false} OnlyItemCanHit(line: string)
    requires line != [] && (line[0] in "-+" || IsDigit(line[0]))
    ensures FirstHit(line, 0) == if Hits(5, line) then Some(5) else None
  {
    var b := Body(line);
    assert b != [] ==> b[0] == line[0];
    NoTitle(line, b);
    NoBold(line, b);
    NoItalic(line, b);
    assert MatchImage(line).None? && MatchLink(line).None?;
  }

  lemma {:induction false} NoTitle(line: string, b: string)
    requires b == Body(line) && b != [] && b[0] != '#'
    ensures !Hits(0, line)
  {
    assert TitleIn(b).None?;
  }

  lemma {:induction false} NoBold(line: string, b: string)
    requires b == Body(line) && b != [] && b[0] != '*' && b[0] != '_'
    ensures !Hits(1, line)
  {
    if |b| >= 4 {
      assert b[..2][0] == b[0];
    }
  }

  lemma {:induction false} NoItalic(line: string, b: string)
    requires b == Body(line) && b != [] && b[0] != '*' && b[0] != '_'
    ensures !Hits(2, line)
  {
  }

  /** What a line contributes when the list item recogniser is the first to
      hit it. */
  lemma {:induction false} ItemLineStep(line: string, text: string, t: ListType, inside: Option<ListType>, how: Wrapping)
    requires FirstHit(line, 0) == Some(5) && MatchItem(line) == Some(Item(text, t))
    ensures LineStep(line, inside, how) == Step(WrapBy(how, inside, Some(t)).tags, HtmlItem(text), Some(t))
  {
  }

  /** The program on `- a` then `1. b` writes `<ul><li>a</li><ol></ul><li>b</li>`:
      the start tag of the ordered list comes before the end tag of the
      unordered one. */
  lemma {:induction false} DocumentSwitchAsWritten()
    ensures ConvertFrom(["- a\n", "1. b\n"], "", None, AsWritten).html
         == HtmlStartList(Unordered) + HtmlItem("a") + (HtmlStartList(Ordered) + HtmlEndList(Unordered) + HtmlItem("b"))
  {
    TwoItemLines(AsWritten);
    assert TagsHtml([Start(Ordered), End(Unordered)]) == HtmlStartList(Ordered) + HtmlEndList(Unordered);
  }

  /** The same two lines with the corrected wrapping write
      `<ul><li>a</li></ul><ol><li>b</li>`: the unordered list is closed
      before the ordered one opens. */
  lemma {:induction false} ListSwitch()
    ensures ConvertFrom(["- a\n", "1. b\n"], "", None, Corrected).html
         == HtmlStartList(Unordered) + HtmlItem("a") + (HtmlEndList(Unordered) + HtmlStartList(Ordered) + HtmlItem("b"))
  {
    TwoItemLines(Corrected);
    assert TagsHtml([End(Unordered), Start(Ordered)]) == HtmlEndList(Unordered) + HtmlStartList(Ordered);
  }

  /** `- a` then `1. b`: the first item, the switching tags, the second item. */
  lemma {:induction false} TwoItemLines(how: Wrapping)
    ensures ConvertFrom(["- a\n", "1. b\n"], "", None, how).html
         == HtmlStartList(Unordered) + HtmlItem("a") + (TagsHtml(WrapBy(how, Some(Unordered), Some(Ordered)).tags) + HtmlItem("b"))
  {
    var lines := ["- a\n", "1. b\n"];
    FirstItemLine(how);
    SwitchingItemLine(HtmlStartList(Unordered) + HtmlItem("a"), how);
    assert lines[1..] == ["1. b\n"] && lines[1..][1..] == [];
  }

  /** An ordered item inside an unordered list: the wrapper tags of the
      switch, then the item. */
  lemma {:induction false} SwitchingItemLine(html: string, how: Wrapping)
    ensures Process("1. b\n", html, Some(Unordered), how)
         == Processed(html + (TagsHtml(WrapBy(how, Some(Unordered), Some(Ordered)).tags) + HtmlItem("b")), Some(Ordered))
  {
    OrderedItemRoundTrip(1, "b");
    assert NatToString(1) + ". " + "b" + "\n" == "1. b\n";
    OnlyItemCanHit("1. b\n");
    ItemLineStep("1. b\n", "b", Ordered, Some(Unordered), how);
  }

  /** A list still open after the last line is never closed: `<ul><li>a</li>`. */
  lemma {:induction false} ListOpenAtEnd()
    ensures ConvertFrom(["- a\n"], "", None, AsWritten) == Processed(HtmlStartList(Unordered) + HtmlItem("a"), Some(Unordered))
  {
    FirstItemLine(AsWritten);
    assert ["- a\n"][1..] == [];
  }

  /** The first item opens its list. */
  lemma {:induction false} FirstItemLine(how: Wrapping)
    ensures Process("- a\n", "", None, how) == Processed(HtmlStartList(Unordered) + HtmlItem("a"), Some(Unordered))
  {
    UnorderedItemRoundTrip('-', "a");
    assert ['-'] + " " + "a" + "\n" == "- a\n";
    OnlyItemCanHit("- a\n");
    ItemLineStep("- a\n", "a", Unordered, None, how);
    assert TagsHtml([Start(Unordered)]) == HtmlStartList(Unordered);
  }

  /** An empty line is no element: it is copied and leaves an open list
      open. */
  lemma {:induction false} BlankLineKeepsList(html: string, inside: Option<ListType>, how: Wrapping)
    ensures Process("\n", html, inside, how) == Processed(html + "\n", inside)
  {
    assert FirstHit("\n", 0) == None;
  }

  // The whole document.

  /** The wrapper tags of all the lines, in order. */
  function Trace(lines: seq<string>, inside: Option<ListType>, how: Wrapping): seq<Tag>
    decreases |lines|
  {
    if lines == [] then []
    else
      var s := LineStep(lines[0], inside, how);
      s.tags + Trace(lines[1..], s.inside, how)
  }

  /** What all the lines contribute to the document, in order. */
  function Render(lines: seq<string>, inside: Option<ListType>, how: Wrapping): string
    decreases |lines|
  {
    if lines == [] then ""
    else
      var s := LineStep(lines[0], inside, how);
      TagsHtml(s.tags) + s.piece + Render(lines[1..], s.inside, how)
  }

  /** The document is the html so far followed by each line's contribution;
      in particular it only ever grows. */
  lemma {:induction false} ConvertIsRender(lines: seq<string>, html: string, inside: Option<ListType>, how: Wrapping)
    ensures ConvertFrom(lines, html, inside, how).html == html + Render(lines, inside, how)
    decreases |lines|
  {
    if lines != [] {
      var s := LineStep(lines[0], inside, how);
      var piece := TagsHtml(s.tags) + s.piece;
      ConvertIsRender(lines[1..], html + piece, s.inside, how);
      Associative(html, piece, Render(lines[1..], s.inside, how));
    }
  }

  lemma {:induction false} Associative(a: string, b: string, c: string)
    ensures a + b + c == a + (b + c)
  {
  }

  /** With the corrected wrapping the list tags of the whole document are
      well bracketed: a list is opened only when none is open and closed
      only while open, and the list left open at the end is the one the
      converter still holds. */
  lemma {:induction false} ConvertIsBracketed(lines: seq<string>, html: string, inside: Option<ListType>)
    ensures Bracketed(inside, Trace(lines, inside, Corrected), ConvertFrom(lines, html, inside, Corrected).inside)
    decreases |lines|
  {
    if lines != [] {
      var s := LineStep(lines[0], inside, Corrected);
      var p := Process(lines[0], html, inside, Corrected);
      ConvertIsBracketed(lines[1..], p.html, s.inside);
      BracketedAppend(inside, s.tags, s.inside, Trace(lines[1..], s.inside, Corrected),
                      ConvertFrom(lines, html, inside, Corrected).inside);
    }
  }

  /** No line of the document is a list item of the other type than the
      list open before it. */
  predicate SwitchFree(lines: seq<string>, inside: Option<ListType>)
    decreases |lines|
  {
    lines == []
    || var s := LineStep(lines[0], inside, Corrected);
       !Switches(inside, s.inside) && SwitchFree(lines[1..], s.inside)
  }

  /** The program and the corrected converter always end in the same list
      state. */
  lemma {:induction false} ConvertSameState(lines: seq<string>, html: string, html': string, inside: Option<ListType>)
    ensures ConvertFrom(lines, html, inside, AsWritten).inside == ConvertFrom(lines, html', inside, Corrected).inside
    decreases |lines|
  {
    if lines != [] {
      LineStepAgrees(lines[0], inside);
      var pw, pc := Process(lines[0], html, inside, AsWritten), Process(lines[0], html', inside, Corrected);
      ConvertSameState(lines[1..], pw.html, pc.html, pc.inside);
    }
  }

  /** The program writes the same list tags as the corrected converter,
      only in a different order at the switches. */
  lemma {:induction false} TraceReorders(lines: seq<string>, inside: Option<ListType>)
    ensures multiset(Trace(lines, inside, AsWritten)) == multiset(Trace(lines, inside, Corrected))
    decreases |lines|
  {
    if lines != [] {
      LineStepAgrees(lines[0], inside);
      var w, c := LineStep(lines[0], inside, AsWritten), LineStep(lines[0], inside, Corrected);
      TraceReorders(lines[1..], c.inside);
    }
  }

  /** On a document without a switch between list types the program writes
      exactly what the corrected converter writes. */
  lemma {:induction false} ConvertAgreesWithoutSwitch(lines: seq<string>, html: string, inside: Option<ListType>)
    requires SwitchFree(lines, inside)
    ensures ConvertFrom(lines, html, inside, AsWritten) == ConvertFrom(lines, html, inside, Corrected)
    decreases |lines|
  {
    if lines != [] {
      LineStepAgrees(lines[0], inside);
      var p := Process(lines[0], html, inside, Corrected);
      assert Process(lines[0], html, inside, AsWritten) == p;
      ConvertAgreesWithoutSwitch(lines[1..], p.html, p.inside);
    }
  }

  lemma {:induction false} BracketedAppend(a: Option<ListType>, xs: seq<Tag>, b: Option<ListType>, ys: seq<Tag>, c: Option<ListType>)
    requires Bracketed(a, xs, b) && Bracketed(b, ys, c)
    ensures Bracketed(a, xs + ys, c)
    decreases |xs|
  {
    if xs == [] {
      assert xs + ys == ys;
    } else {
      assert (xs + ys)[0] == xs[0];
      assert (xs + ys)[1..] == xs[1..] + ys;
      var next := if xs[0].Start? then Some(xs[0].listType) else None;
      BracketedAppend(next, xs[1..], b, ys, c);
    }
  }
}
