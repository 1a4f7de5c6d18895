/** Object literals in the styles that the chain registry uses, written out character by character,
    and what each rewrite of convertJSToJSON does to them. */
module JsFragment {
  import opened Wrappers
  import opened Regexp
  import opened JsToJson
  import Json

  /** The name of a member: none in arrays, an unquoted word, or a quoted string, with the white space
      before and after its colon. */
  datatype Label =
    | NoName
    | Bare(name: string, before: string, after: string)
    | Quoted(content: string, quote: char, before: string, after: string)

  datatype Node =
    | Scalar(text: string)
    | Str(content: string, quote: char)
    | Empty(braces: bool, ws: string)
    | Group(braces: bool, open: string, items: Items)

  /** Items with the white space around their commas; `comma` is a trailing comma and the white space
      behind it. */
  datatype Items =
    | Last(key: Label, node: Node, after: string, comma: Option<string>)
    | More(key: Label, node: Node, after: string, lead: string, tail: Items)

  // ---------- writing out, in front of `rest` ----------

  function Opener(braces: bool): char {
    if braces then '{' else '['
  }

  function QuotedOn(content: string, quote: char, rest: string): string {
    [quote] + (content + ([quote] + rest))
  }

  function LabelOn(l: Label, rest: string): string {
    match l
    case NoName => rest
    case Bare(name, before, after) => name + (before + ([':'] + (after + rest)))
    case Quoted(content, quote, before, after) => QuotedOn(content, quote, before + ([':'] + (after + rest)))
  }

  function NodeOn(n: Node, rest: string): string {
    match n
    case Scalar(text) => text + rest
    case Str(content, quote) => QuotedOn(content, quote, rest)
    case Empty(braces, ws) => [Opener(braces)] + (ws + ([Json.Closer(braces)] + rest))
    case Group(braces, open, items) => [Opener(braces)] + (open + ItemsOn(items, [Json.Closer(braces)] + rest))
  }

  function ItemsOn(items: Items, rest: string): string {
    match items
    case Last(key, node, after, comma) => LabelOn(key, NodeOn(node, after + CommaOn(comma, rest)))
    case More(key, node, after, lead, tail) =>
      LabelOn(key, NodeOn(node, after + ([','] + (lead + ItemsOn(tail, rest)))))
  }

  function CommaOn(comma: Option<string>, rest: string): string {
    if comma.Some? then [','] + (comma.value + rest) else rest
  }

  // ---------- what the text means ----------

  function Meaning(n: Node): Json.Value {
    match n
    case Scalar(text) => Json.Scalar(text)
    case Str(content, _) => Json.Str(content)
    case Empty(braces, _) => Json.Container(braces, Json.End)
    case Group(braces, _, items) => Json.Container(braces, MeaningOf(items))
  }

  function MeaningOf(items: Items): Json.Items {
    match items
    case Last(key, node, _, _) => Json.Item(NameOf(key), Meaning(node), Json.End)
    case More(key, node, _, _, tail) => Json.Item(NameOf(key), Meaning(node), MeaningOf(tail))
  }

  function NameOf(l: Label): Option<string> {
    match l
    case NoName => None
    case Bare(name, _, _) => Some(name)
    case Quoted(content, _, _, _) => Some(content)
  }

  // ---------- the rewrites as stages ----------

  datatype Stage = HeaderStage | SemicolonStage | QuoteStage | CommaStage | BraceCommaStage | NameStage | CleanupStage

  function RuleOf(k: Stage): Rule {
    match k
    case HeaderStage => Header()
    case SemicolonStage => Semicolon()
    case QuoteStage => Quote()
    case CommaStage => Comma()
    case BraceCommaStage => BraceComma()
    case NameStage => Name()
    case CleanupStage => AnySemicolon()
  }

  function QuoteAfter(k: Stage, quote: char): char {
    if k == QuoteStage then '"' else quote
  }

  function LabelAfter(k: Stage, l: Label): Label {
    match l
    case NoName => l
    case Bare(name, before, after) => if k == NameStage && before == "" then Quoted(name, '"', "", after) else l
    case Quoted(_, quote, _, _) => l.(quote := QuoteAfter(k, quote))
  }

  function NodeAfter(k: Stage, n: Node): Node {
    match n
    case Scalar(_) | Empty(_, _) => n
    case Str(_, quote) => n.(quote := QuoteAfter(k, quote))
    case Group(_, _, items) => n.(items := ItemsAfter(k, items))
  }

  function ItemsAfter(k: Stage, items: Items): Items {
    match items
    case Last(key, node, after, comma) =>
      if k == CommaStage && comma.Some? then Last(LabelAfter(k, key), NodeAfter(k, node), after + comma.value, None)
      else Last(LabelAfter(k, key), NodeAfter(k, node), after, comma)
    case More(key, node, after, lead, tail) =>
      More(LabelAfter(k, key), NodeAfter(k, node), after, lead, ItemsAfter(k, tail))
  }

  // ---------- the fragment ----------

  predicate IsQuote(c: char) {
    c == '"' || c == '\''
  }

  predicate IsContentChar(c: char) {
    Json.IsPlain(c) && c !in "',;{}[]"
  }

  /** What a stage relies on in a string: no special characters, and no export header while that is
      being removed. */
  ghost predicate GoodContent(k: Stage, s: string) {
    (forall c <- s :: IsContentChar(c)) && (k == HeaderStage ==> NowhereIn(HeaderPattern(), s))
  }

  ghost predicate GoodLabel(k: Stage, l: Label, braces: bool) {
    match l
    case NoName => !braces
    case Bare(name, before, after) =>
      braces && name != "" && AllBelong(name, Word) && Json.AllWs(before) && Json.AllWs(after)
    case Quoted(content, quote, before, after) =>
      braces && GoodContent(k, content) && IsQuote(quote) && Json.AllWs(before) && Json.AllWs(after)
  }

  ghost predicate GoodNode(k: Stage, n: Node) {
    match n
    case Scalar(text) => Json.IsScalar(text)
    case Str(content, quote) => GoodContent(k, content) && IsQuote(quote)
    case Empty(_, ws) => Json.AllWs(ws)
    case Group(braces, open, items) => Json.AllWs(open) && GoodItems(k, items, braces)
  }

  predicate CommasGone(k: Stage) {
    k == BraceCommaStage || k == NameStage || k == CleanupStage
  }

  ghost predicate GoodItems(k: Stage, items: Items, braces: bool) {
    GoodLabel(k, items.key, braces) && GoodNode(k, items.node) && Json.AllWs(items.after)
    && match items
       case Last(_, _, _, comma) => comma.Some? ==> Json.AllWs(comma.value) && !CommasGone(k)
       case More(_, _, _, lead, tail) => Json.AllWs(lead) && GoodItems(k, tail, braces)
  }

  // ---------- leaves ----------

  /** What may follow a value: nothing, white space, a comma, a closing bracket or a semicolon. */
  predicate MayFollow(rest: string) {
    rest == "" || Json.IsWs(rest[0]) || rest[0] == ',' || rest[0] == '}' || rest[0] == ']' || rest[0] == ';'
  }

  function CommaBracket(): Pattern {
    Then(Is(','), Once, Then(Space, Star, Then(Is(']'), Once, Match0)))
  }

  predicate Boundary(k: Stage, rest: string) {
    MayFollow(rest) && (k == BraceCommaStage ==> Match(CommaBracket(), rest).None?)
  }

  /** Characters that no rule but the header's starts with. */
  predicate Plain(c: char) {
    c != ',' && c != ';' && c != '{' && c != '}' && c != '\''
  }

  /** The characters with which a match of a stage's rule can start. */
  predicate Starts(k: Stage, c: char) {
    match k
    case HeaderStage => c == 'e'
    case SemicolonStage | CleanupStage => c == ';'
    case QuoteStage => c == '\''
    case CommaStage => c == ','
    case BraceCommaStage => c == '}'
    case NameStage => c == ',' || c == '{'
  }

  lemma StageStarts(k: Stage, c: char)
    ensures var p := RuleOf(k).pattern; p.Then? && p.q == Once && (Belongs(c, p.cls) <==> Starts(k, c))
  {
  }

  /** Text in which no match can start stays as it is. */
  lemma IdleText(k: Stage, text: string, rest: string)
    requires forall c <- text :: !Starts(k, c)
    ensures ReplaceAll(RuleOf(k), text + rest) == text + ReplaceAll(RuleOf(k), rest)
  {
    StageStarts(k, ' ');
    forall c | c in text ensures !Belongs(c, RuleOf(k).pattern.cls) {
      StageStarts(k, c);
    }
    NoTrigger(RuleOf(k), text, rest);
  }

  lemma PlainText(k: Stage, text: string, rest: string)
    requires forall c <- text :: Plain(c)
    requires k == HeaderStage ==> 'e' !in text
    ensures ReplaceAll(RuleOf(k), text + rest) == text + ReplaceAll(RuleOf(k), rest)
  {
    IdleText(k, text, rest);
  }

  lemma WhiteSpace(k: Stage, ws: string, rest: string)
    requires Json.AllWs(ws)
    ensures ReplaceAll(RuleOf(k), ws + rest) == ws + ReplaceAll(RuleOf(k), rest)
  {
    PlainText(k, ws, rest);
  }

  lemma SingleQuote(rest: string)
    ensures ReplaceAll(Quote(), "'" + rest) == "\"" + ReplaceAll(Quote(), rest)
  {
    var s := "'" + rest;
    assert s[1..] == rest && s[..1] == "'";
    assert Match(Match0, rest) == Some([]);
    assert Match(Quote().pattern, s) == Some(["'"] + []);
    assert ["'"] + [] == ["'"] && Flatten(["'"]) == "'" + Flatten([]);
    MatchHere(Quote(), "'", rest, ["'"]);
    assert Expand([Text("\"")], ["'"]) == "\"" + Expand([], ["'"]);
  }

  lemma QuoteChar(k: Stage, quote: char, rest: string)
    requires IsQuote(quote)
    ensures ReplaceAll(RuleOf(k), [quote] + rest) == [QuoteAfter(k, quote)] + ReplaceAll(RuleOf(k), rest)
  {
    if k == QuoteStage && quote == '\'' {
      SingleQuote(rest);
    } else {
      IdleText(k, [quote], rest);
    }
  }

  lemma QuotedLeaf(k: Stage, content: string, quote: char, rest: string)
    requires GoodContent(k, content) && IsQuote(quote)
    ensures ReplaceAll(RuleOf(k), QuotedOn(content, quote, rest))
            == QuotedOn(content, QuoteAfter(k, quote), ReplaceAll(RuleOf(k), rest))
  {
    QuoteChar(k, quote, content + ([quote] + rest));
    QuoteChar(k, quote, rest);
    if k == HeaderStage {
      HeaderBlocked(quote);
      NoMatchBefore(Header(), content, quote, rest);
    } else {
      PlainText(k, content, [quote] + rest);
    }
  }

  lemma HeaderBlocked(c: char)
    requires !IsSpace(c) && !IsWord(c) && c != '='
    ensures Blocks(c, HeaderPattern())
  {
    assert Blocks(c, Then(Is('='), Once, Then(Space, Star, Match0)));
    LiteralBlocked("data", AfterHeader(), c);
    LiteralBlocked("const", Then(Space, Plus, Literal("data", AfterHeader())), c);
    LiteralBlocked("export", Then(Space, Plus, Literal("const", Then(Space, Plus, Literal("data", AfterHeader())))), c);
  }

  lemma {:induction false} LiteralBlocked(text: string, next: Pattern, c: char)
    requires Blocks(c, next) && AllBelong(text, Word) && !IsWord(c)
    ensures Blocks(c, Literal(text, next))
  {
    if text != "" {
      assert text[0] in text;
      LiteralBlocked(text[1..], next, c);
    }
  }

  lemma {:induction false} LiteralNeeds(text: string, next: Pattern, cls: Class)
    requires Needs(next, cls)
    ensures Needs(Literal(text, next), cls)
  {
    if text != "" {
      LiteralNeeds(text[1..], next, cls);
    }
  }

  lemma HeaderNeedsEquals()
    ensures Needs(HeaderPattern(), Is('='))
  {
    assert Needs(AfterHeader(), Is('='));
    var data := Literal("data", AfterHeader());
    LiteralNeeds("data", AfterHeader(), Is('='));
    LiteralNeeds("const", Then(Space, Plus, data), Is('='));
    LiteralNeeds("export", Then(Space, Plus, Literal("const", Then(Space, Plus, data))), Is('='));
  }

  lemma HeaderBareLeaf(name: string, before: string, tail: string)
    requires AllBelong(name, Word) && Json.AllWs(before)
    ensures ReplaceAll(Header(), name + (before + ([':'] + tail)))
            == name + (before + ([':'] + ReplaceAll(Header(), tail)))
  {
    SplitLabel(name, before, [':'] + tail);
    SplitLabel(name, before, [':'] + ReplaceAll(Header(), tail));
    HeaderBlocked(':');
    HeaderNowhere(name + before);
    NoMatchBefore(Header(), name + before, ':', tail);
  }

  lemma SplitLabel(name: string, before: string, rest: string)
    ensures name + (before + rest) == (name + before) + rest
  {
  }

  /** Words and white space hold no export header. */
  lemma HeaderNowhere(text: string)
    requires '=' !in text
    ensures NowhereIn(HeaderPattern(), text)
  {
    HeaderNeedsEquals();
    NeededNowhere(HeaderPattern(), Is('='), text);
  }

  lemma BareLeaf(k: Stage, name: string, before: string, after: string, rest: string)
    requires AllBelong(name, Word) && Json.AllWs(before) && Json.AllWs(after)
    ensures ReplaceAll(RuleOf(k), LabelOn(Bare(name, before, after), rest))
            == LabelOn(Bare(name, before, after), ReplaceAll(RuleOf(k), rest))
  {
    if k == HeaderStage {
      WhiteSpace(k, after, rest);
      HeaderBareLeaf(name, before, after + rest);
    } else {
      PlainLabel(name, before, after, rest, ReplaceAll(RuleOf(k), rest));
      PlainText(k, name + (before + ([':'] + after)), rest);
    }
  }

  lemma PlainLabel(name: string, before: string, after: string, rest: string, s: string)
    requires AllBelong(name, Word) && Json.AllWs(before) && Json.AllWs(after)
    ensures forall c <- name + (before + ([':'] + after)) :: Plain(c)
    ensures name + (before + ([':'] + after)) + rest == LabelOn(Bare(name, before, after), rest)
    ensures name + (before + ([':'] + after)) + s == LabelOn(Bare(name, before, after), s)
  {
  }

  lemma HeadAndTail(text: string, rest: string)
    requires text != ""
    ensures text + rest == [text[0]] + (text[1..] + rest)
  {
  }

  /** A character not followed by an x does not begin an export header. */
  lemma NoHeaderHere(c: char, rest: string)
    requires rest == "" || rest[0] != 'x'
    ensures ReplaceAll(Header(), [c] + rest) == [c] + ReplaceAll(Header(), rest)
  {
    var afterExport := Literal("const", Then(Space, Plus, Literal("data", AfterHeader())));
    var xport := Literal("xport", Then(Space, Plus, afterExport));
    assert "export"[1..] == "xport" && "xport"[0] == 'x';
    assert HeaderPattern() == Then(Is('e'), Once, xport) && xport.cls == Is('x') && xport.q == Once;
    assert Match(xport, rest).None?;
    assert ([c] + rest)[1..] == rest;
    NoMatchHere(Header(), c, rest);
  }

  /** No number or literal name begins an export header. */
  lemma {:induction false} HeaderScalar(text: string, rest: string)
    requires 'x' !in text && (rest == "" || rest[0] != 'x')
    ensures ReplaceAll(Header(), text + rest) == text + ReplaceAll(Header(), rest)
    decreases |text|
  {
    if text == "" {
      assert text + rest == rest;
    } else {
      var tail := text[1..];
      HeadAndTail(text, rest);
      HeadAndTail(text, ReplaceAll(Header(), rest));
      assert tail + rest != "" ==> (tail + rest)[0] == if tail == "" then rest[0] else tail[0];
      NoHeaderHere(text[0], tail + rest);
      HeaderScalar(tail, rest);
    }
  }

  lemma ScalarIsPlain(text: string)
    requires forall c <- text :: Json.IsScalarChar(c)
    ensures forall c <- text :: Plain(c)
  {
  }

  lemma ScalarLeaf(k: Stage, text: string, rest: string)
    requires Json.IsScalar(text) && MayFollow(rest)
    ensures ReplaceAll(RuleOf(k), text + rest) == text + ReplaceAll(RuleOf(k), rest)
  {
    Json.ScalarChars(text);
    if k == HeaderStage {
      HeaderScalar(text, rest);
    } else {
      ScalarIsPlain(text);
      PlainText(k, text, rest);
    }
  }

  lemma BraceStaysHere(rest: string)
    requires Match(CommaBracket(), rest).None?
    ensures ReplaceAll(BraceComma(), ['}'] + rest) == ['}'] + ReplaceAll(BraceComma(), rest)
  {
    assert (['}'] + rest)[1..] == rest;
    NoMatchHere(BraceComma(), '}', rest);
  }

  lemma CloserLeaf(k: Stage, braces: bool, rest: string)
    requires Boundary(k, rest)
    ensures ReplaceAll(RuleOf(k), [Json.Closer(braces)] + rest) == [Json.Closer(braces)] + ReplaceAll(RuleOf(k), rest)
  {
    if k == BraceCommaStage && braces {
      BraceStaysHere(rest);
    } else {
      IdleText(k, [Json.Closer(braces)], rest);
    }
  }

  // ---------- separators: an opening bracket or a comma, and white space ----------

  /** A class taken once, white space, and the rest of a pattern, on a text that starts that way. */
  lemma SpacedMatch(cls: Class, next: Pattern, c: char, ws: string, rest: string)
    requires Belongs(c, cls) && AllBelong(ws, Space) && (rest == "" || !IsSpace(rest[0]))
    ensures var m := Match(next, rest);
            Match(Then(cls, Once, Then(Space, Star, next)), [c] + (ws + rest))
            == if m.None? then None else Some([[c]] + ([ws] + m.value))
  {
    var s := [c] + (ws + rest);
    assert s[1..] == ws + rest && s[..1] == [c];
    RunIsLongest(Space, ws, rest);
    assert (ws + rest)[|ws|..] == rest && (ws + rest)[..|ws|] == ws;
  }

  predicate IsSeparator(c: char) {
    c == '{' || c == '[' || c == ','
  }

  /** What must not follow a separator for a stage to leave it alone. */
  predicate Harmless(k: Stage, rest: string) {
    && rest != "" && !IsSpace(rest[0])
    && (k == CommaStage ==> rest[0] != '}' && rest[0] != ']')
    && (k == NameStage ==> Match(WordColon(), rest).None?)
  }

  lemma CommaStaysHere(ws: string, rest: string)
    requires Json.AllWs(ws) && Harmless(CommaStage, rest)
    ensures ReplaceAll(Comma(), [','] + (ws + rest)) == [','] + ReplaceAll(Comma(), ws + rest)
  {
    var closing := Then(OneOf("}]"), Once, Match0);
    assert Match(closing, rest).None?;
    SpacedMatch(Is(','), closing, ',', ws, rest);
    NoMatchHere(Comma(), ',', ws + rest);
  }

  lemma NameStaysHere(sep: char, ws: string, rest: string)
    requires (sep == ',' || sep == '{') && Json.AllWs(ws) && Harmless(NameStage, rest)
    ensures ReplaceAll(Name(), [sep] + (ws + rest)) == [sep] + ReplaceAll(Name(), ws + rest)
  {
    SpacedMatch(OneOf(",{"), WordColon(), sep, ws, rest);
    NoMatchHere(Name(), sep, ws + rest);
  }

  lemma SeparatorLeaf(k: Stage, sep: char, ws: string, rest: string)
    requires IsSeparator(sep) && Json.AllWs(ws) && Harmless(k, rest)
    ensures ReplaceAll(RuleOf(k), [sep] + (ws + rest)) == [sep] + (ws + ReplaceAll(RuleOf(k), rest))
  {
    WhiteSpace(k, ws, rest);
    if k == CommaStage && sep == ',' {
      CommaStaysHere(ws, rest);
    } else if k == NameStage && sep != '[' {
      NameStaysHere(sep, ws, rest);
    } else {
      IdleText(k, [sep], ws + rest);
    }
  }

  lemma NotAWord(rest: string)
    requires rest != "" && !IsWord(rest[0])
    ensures Match(WordColon(), rest).None?
  {
  }

  lemma {:induction false} RunWithin(word: string, rest: string)
    requires rest == "" || !IsWord(rest[0])
    ensures Run(Word, word + rest) <= |word|
    decreases |word|
  {
    if word == "" {
      assert word + rest == rest;
    } else {
      assert (word + rest)[1..] == word[1..] + rest;
      RunWithin(word[1..], rest);
    }
  }

  /** A word that is not directly followed by a colon is not taken for a name. */
  lemma NotAName(word: string, rest: string)
    requires forall c <- word :: c != ':'
    requires rest == "" || (rest[0] != ':' && !IsWord(rest[0]))
    ensures Match(WordColon(), word + rest).None?
  {
    var s := word + rest;
    var n := Run(Word, s);
    RunWithin(word, rest);
    if n < |s| {
      assert s[n] == if n < |word| then word[n] else rest[n - |word|];
      assert n < |word| ==> word[n] in word;
      assert s[n..][0] == s[n] && s[n] != ':';
    }
    assert Match(Then(Is(':'), Once, Match0), s[n..]).None?;
  }

  lemma NodeStart(n: Node, k: Stage, rest: string)
    requires GoodNode(k, n)
    ensures var s := NodeOn(n, rest);
            s != "" && !IsSpace(s[0]) && s[0] != '}' && s[0] != ']' && s[0] != ',' && '!' <= s[0] <= '~'
  {
  }

  lemma NodeIsHarmless(k: Stage, n: Node, rest: string)
    requires GoodNode(k, n) && MayFollow(rest)
    ensures Harmless(k, NodeOn(n, rest))
  {
    NodeStart(n, k, rest);
    if n.Scalar? {
      Json.ScalarChars(n.text);
      assert forall c <- n.text :: Json.IsScalarChar(c);
      NotAName(n.text, rest);
    } else {
      NotAWord(NodeOn(n, rest));
    }
  }

  lemma NameMatch(sep: char, ws: string, name: string, rest: string)
    requires (sep == '{' || sep == ',') && AllBelong(ws, Space) && name != "" && AllBelong(name, Word)
    ensures Match(Name().pattern, [sep] + (ws + (name + ([':'] + rest)))) == Some([[sep], ws, name, ":"])
  {
    var parts := [name, ":"];
    assert parts[1..] == [":"] && [":"][1..] == [];
    assert Flatten([":"]) == ":" + Flatten([]) && Flatten(parts) == name + ":";
    assert Fits(Then(Is(':'), Once, Match0), [":"]);
    MatchExact(WordColon(), parts, rest);
    assert name + ":" + rest == name + ([':'] + rest);
    assert name[0] in name && (name + ([':'] + rest))[0] == name[0];
    SpacedMatch(OneOf(",{"), WordColon(), sep, ws, name + ([':'] + rest));
    assert [[sep]] + ([ws] + parts) == [[sep], ws, name, ":"];
  }

  /** A name right before its colon is put in quotes. */
  lemma NameLeaf(sep: char, ws: string, name: string, rest: string)
    requires (sep == '{' || sep == ',') && Json.AllWs(ws) && name != "" && AllBelong(name, Word)
    ensures ReplaceAll(Name(), [sep] + (ws + (name + ([':'] + rest))))
            == [sep] + (ws + QuotedOn(name, '"', [':'] + ReplaceAll(Name(), rest)))
  {
    var all, text := [[sep], ws, name, ":"], [sep] + (ws + (name + ":"));
    NameMatch(sep, ws, name, rest);
    FlattenFour([sep], ws, name, ":");
    Rejoin([sep], ws, name, ":", rest);
    MatchHere(Name(), text, rest, all);
    ExpandName(all);
    RejoinQuoted([sep], ws, name, ReplaceAll(Name(), rest));
  }

  lemma Rejoin(a: string, b: string, c: string, d: string, rest: string)
    ensures a + (b + (c + d)) + rest == a + (b + (c + (d + rest)))
  {
  }

  lemma RejoinQuoted(a: string, b: string, name: string, rest: string)
    ensures a + (b + ("\"" + (name + "\":"))) + rest == a + (b + QuotedOn(name, '"', [':'] + rest))
  {
  }

  lemma FlattenThree(a: string, b: string, c: string)
    ensures Flatten([a, b, c]) == a + (b + c)
  {
    assert [a, b, c][1..] == [b, c] && [b, c][1..] == [c] && [c][1..] == [];
    assert Flatten([c]) == c + Flatten([]) && Flatten([b, c]) == b + Flatten([c]);
  }

  lemma FlattenFour(a: string, b: string, c: string, d: string)
    ensures Flatten([a, b, c, d]) == a + (b + (c + d))
  {
    assert [a, b, c, d][1..] == [b, c, d];
    FlattenThree(b, c, d);
  }

  lemma ExpandName(parts: seq<string>)
    requires |parts| == 4
    ensures Expand(Name().template, parts) == parts[0] + (parts[1] + ("\"" + (parts[2] + "\":")))
  {
    var t := Name().template;
    assert t[1..][1..] == t[2..] && t[2..][1..] == t[3..] && t[3..][1..] == t[4..] && t[4..][1..] == [];
    assert Expand(t[4..], parts) == "\":" + Expand([], parts);
    assert Expand(t[3..], parts) == parts[2] + Expand(t[4..], parts);
    assert Expand(t[2..], parts) == "\"" + Expand(t[3..], parts);
    assert Expand(t[1..], parts) == parts[1] + Expand(t[2..], parts);
  }

  lemma CommaMatch(ws: string, closer: char, rest: string)
    requires Json.AllWs(ws) && (closer == '}' || closer == ']')
    ensures Match(Comma().pattern, [','] + (ws + ([closer] + rest))) == Some([[','], ws, [closer]])
  {
    var closing, s := Then(OneOf("}]"), Once, Match0), [closer] + rest;
    assert s[..1] == [closer] && s[1..] == rest;
    assert Match(closing, s) == Some([[closer]] + []);
    SpacedMatch(Is(','), closing, ',', ws, s);
    assert [[',']] + ([ws] + ([[closer]] + [])) == [[','], ws, [closer]];
  }

  /** A trailing comma goes, the white space around it stays. */
  lemma TrailingComma(ws: string, closer: char, rest: string)
    requires Json.AllWs(ws) && (closer == '}' || closer == ']')
    ensures ReplaceAll(Comma(), [','] + (ws + ([closer] + rest))) == ws + ReplaceAll(Comma(), [closer] + rest)
  {
    var all, text, c := [[','], ws, [closer]], [','] + (ws + [closer]), [closer];
    CommaMatch(ws, closer, rest);
    FlattenThree([','], ws, c);
    Regroup([','], ws, c, rest);
    MatchHere(Comma(), text, rest, all);
    ExpandComma(all);
    NoTrigger(Comma(), c, rest);
    Regroup("", ws, c, ReplaceAll(Comma(), rest));
  }

  lemma Regroup(a: string, b: string, c: string, rest: string)
    ensures a + (b + c) + rest == a + (b + (c + rest))
    ensures b + c + rest == b + (c + rest)
  {
  }

  lemma ExpandComma(parts: seq<string>)
    requires |parts| == 3
    ensures Expand(Comma().template, parts) == parts[1] + parts[2]
  {
    var t := Comma().template;
    assert t[1..][1..] == [];
    assert Expand(t[1..], parts) == parts[2] + Expand([], parts);
    assert Expand(t, parts) == parts[1] + Expand(t[1..], parts);
  }
}
