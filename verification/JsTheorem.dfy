/** convertJSToJSON preserves meaning: for every literal in the fragment and every style it is
    written in, the output is JSON text for the same value, exactly when every unquoted name is
    directly followed by its colon. */
module JsTheorem {
  import opened Wrappers
  import opened Regexp
  import opened JsToJson
  import opened JsFragment
  import opened JsFirstName
  import opened JsStages
  import Json

  /** White space in `export const data =`. */
  datatype Export = Export(w1: string, w2: string, w3: string, w4: string)

  datatype Document = Document(lead: string, header: Option<Export>, node: Node, tail: string)

  function HeaderOn(header: Option<Export>, rest: string): string {
    match header
    case None => rest
    case Some(h) => "export" + (h.w1 + ("const" + (h.w2 + ("data" + (h.w3 + ("=" + h.w4)))))) + rest
  }

  function SourceText(d: Document): string {
    d.lead + HeaderOn(d.header, NodeOn(d.node, d.tail))
  }

  predicate IsTailChar(c: char) {
    Json.IsWs(c) || c == ';'
  }

  predicate IsTail(s: string) {
    forall c <- s :: IsTailChar(c)
  }

  ghost predicate GoodDocument(d: Document) {
    && Json.AllWs(d.lead) && GoodNode(HeaderStage, d.node) && IsTail(d.tail)
    && match d.header
       case None => true
       case Some(h) => h.w1 != "" && h.w2 != "" && AllBelong(h.w1, Space) && AllBelong(h.w2, Space)
                       && AllBelong(h.w3, Space) && AllBelong(h.w4, Space)
  }

  // ---------- what the stages leave ----------

  lemma {:induction false} GoodAfter(k: Stage, l: Stage, n: Node)
    requires GoodNode(k, n) && l != HeaderStage && (CommasGone(l) ==> k == CommaStage || CommasGone(k))
    ensures GoodNode(l, NodeAfter(k, n))
    decreases n
  {
    if n.Group? {
      GoodItemsAfter(k, l, n.items, n.braces);
    }
  }

  lemma {:induction false} GoodItemsAfter(k: Stage, l: Stage, items: Items, braces: bool)
    requires GoodItems(k, items, braces) && l != HeaderStage && (CommasGone(l) ==> k == CommaStage || CommasGone(k))
    ensures GoodItems(l, ItemsAfter(k, items), braces)
    decreases items
  {
    GoodAfter(k, l, items.node);
    GoodLabelAfter(k, l, items.key, braces);
    match items
    case Last(key, node, after, comma) =>
      GoodLastAfter(k, l, LabelAfter(k, key), NodeAfter(k, node), after, comma, braces);
    case More(key, node, after, lead, tail) =>
      GoodItemsAfter(k, l, tail, braces);
      GoodMore(l, LabelAfter(k, key), NodeAfter(k, node), after, lead, ItemsAfter(k, tail), braces);
  }

  lemma GoodLabelAfter(k: Stage, l: Stage, key: Label, braces: bool)
    requires GoodLabel(k, key, braces) && l != HeaderStage
    ensures GoodLabel(l, LabelAfter(k, key), braces)
  {
    if key.Bare? {
      WordIsContent(key.name);
    }
  }

  lemma WordIsContent(name: string)
    requires AllBelong(name, Word)
    ensures forall c <- name :: IsContentChar(c)
  {
    assert forall c <- name :: IsWord(c);
  }

  lemma GoodLastAfter(k: Stage, l: Stage, key: Label, node: Node, after: string, comma: Option<string>, braces: bool)
    requires GoodLabel(l, key, braces) && GoodNode(l, node) && Json.AllWs(after)
    requires comma.Some? ==> Json.AllWs(comma.value) && !CommasGone(k)
    requires CommasGone(l) ==> k == CommaStage || CommasGone(k)
    ensures GoodItems(l, if k == CommaStage && comma.Some? then Last(key, node, after + comma.value, None)
                         else Last(key, node, after, comma), braces)
  {
  }

  lemma GoodMore(l: Stage, key: Label, node: Node, after: string, lead: string, tail: Items, braces: bool)
    requires GoodLabel(l, key, braces) && GoodNode(l, node) && Json.AllWs(after) && Json.AllWs(lead)
    requires GoodItems(l, tail, braces)
    ensures GoodItems(l, More(key, node, after, lead, tail), braces)
  {
  }

  /** Removing the header or stray semicolons does not touch the literal. */
  lemma {:induction false} StageIsIdle(k: Stage, n: Node)
    requires k == HeaderStage || k == SemicolonStage || k == BraceCommaStage || k == CleanupStage
    ensures NodeAfter(k, n) == n
    decreases n
  {
    if n.Group? {
      ItemsStageIsIdle(k, n.items);
    }
  }

  lemma {:induction false} ItemsStageIsIdle(k: Stage, items: Items)
    requires k == HeaderStage || k == SemicolonStage || k == BraceCommaStage || k == CleanupStage
    ensures ItemsAfter(k, items) == items
    decreases items
  {
    StageIsIdle(k, items.node);
    if items.More? {
      ItemsStageIsIdle(k, items.tail);
    }
  }

  lemma {:induction false} SameMeaning(k: Stage, n: Node)
    ensures Meaning(NodeAfter(k, n)) == Meaning(n)
    decreases n
  {
    if n.Group? {
      SameMeaningOf(k, n.items);
    }
  }

  lemma {:induction false} SameMeaningOf(k: Stage, items: Items)
    ensures MeaningOf(ItemsAfter(k, items)) == MeaningOf(items)
    decreases items
  {
    SameMeaning(k, items.node);
    if items.More? {
      SameMeaningOf(k, items.tail);
    }
  }

  /** Some unquoted name is separated from its colon. */
  predicate SpacedName(n: Node) {
    n.Group? && SpacedNames(n.items)
  }

  predicate SpacedNames(items: Items) {
    (items.key.Bare? && items.key.before != "") || SpacedName(items.node) || (items.More? && SpacedNames(items.tail))
  }

  /** Some name is unquoted. */
  predicate BareName(n: Node) {
    n.Group? && BareNames(n.items)
  }

  predicate BareNames(items: Items) {
    items.key.Bare? || BareName(items.node) || (items.More? && BareNames(items.tail))
  }

  predicate DoubleQuoted(n: Node) {
    match n
    case Str(_, quote) => quote == '"'
    case Group(_, _, items) => DoubleQuotedItems(items)
    case _ => true
  }

  predicate DoubleQuotedItems(items: Items) {
    (items.key.Quoted? ==> items.key.quote == '"') && DoubleQuoted(items.node)
    && (items.More? ==> DoubleQuotedItems(items.tail))
  }

  lemma {:induction false} NamesAfter(k: Stage, n: Node)
    ensures SpacedName(NodeAfter(k, n)) == SpacedName(n)
    ensures k == NameStage ==> BareName(NodeAfter(k, n)) == SpacedName(n)
    ensures k == QuoteStage || DoubleQuoted(n) ==> DoubleQuoted(NodeAfter(k, n))
    decreases n
  {
    if n.Group? {
      ItemNamesAfter(k, n.items);
    }
  }

  lemma {:induction false} ItemNamesAfter(k: Stage, items: Items)
    ensures SpacedNames(ItemsAfter(k, items)) == SpacedNames(items)
    ensures k == NameStage ==> BareNames(ItemsAfter(k, items)) == SpacedNames(items)
    ensures k == QuoteStage || DoubleQuotedItems(items) ==> DoubleQuotedItems(ItemsAfter(k, items))
    decreases items
  {
    NamesAfter(k, items.node);
    if items.More? {
      ItemNamesAfter(k, items.tail);
    }
  }

  // ---------- the ends of the text ----------

  lemma {:induction false} NodeSplits(n: Node, rest: string)
    ensures NodeOn(n, rest) == NodeOn(n, "") + rest
    decreases n
  {
    match n
    case Scalar(text) =>
    case Str(content, quote) =>
      QuotedSplits(content, quote, "", rest);
    case Empty(braces, ws) =>
    case Group(braces, open, items) =>
      var c := [Json.Closer(braces)];
      ItemsSplit(items, c + rest);
      ItemsSplit(items, c + "");
      BracketsSplit([Opener(braces)], open, ItemsOn(items, ""), c, rest);
  }

  lemma GroupSplits(a: string, b: string, c: string, rest: string)
    ensures a + (b + (c + rest)) == a + (b + c) + rest
  {
  }

  lemma BracketsSplit(a: string, b: string, items: string, c: string, rest: string)
    ensures a + (b + (items + (c + rest))) == a + (b + (items + (c + ""))) + rest
  {
  }

  lemma QuotedSplits(content: string, quote: char, more: string, rest: string)
    ensures QuotedOn(content, quote, more + rest) == QuotedOn(content, quote, more) + rest
    ensures "" + rest == rest
  {
    assert [quote] + (content + ([quote] + (more + rest))) == [quote] + (content + ([quote] + more)) + rest;
  }

  lemma LabelSplits(key: Label, more: string, rest: string)
    ensures LabelOn(key, more + rest) == LabelOn(key, more) + rest
  {
    match key
    case NoName =>
    case Bare(name, before, after) =>
      assert after + (more + rest) == after + more + rest;
      ColonSplits(before, after + more, rest);
      GroupSplits("", name, before + ([':'] + (after + more)), rest);
      assert "" + (name + (before + ([':'] + (after + more)))) == name + (before + ([':'] + (after + more)));
    case Quoted(content, quote, before, after) =>
      assert after + (more + rest) == after + more + rest;
      ColonSplits(before, after + more, rest);
      QuotedSplits(content, quote, before + ([':'] + (after + more)), rest);
  }

  lemma ColonSplits(before: string, more: string, rest: string)
    ensures before + ([':'] + (more + rest)) == before + ([':'] + more) + rest
  {
  }

  lemma {:induction false} ItemsSplit(items: Items, rest: string)
    ensures ItemsOn(items, rest) == ItemsOn(items, "") + rest
    decreases items
  {
    match items
    case Last(key, node, after, comma) =>
      var end := after + CommaOn(comma, "");
      LastSplits(after, comma, rest);
      NodeSplits(node, end + rest);
      NodeSplits(node, end);
      assert NodeOn(node, "") + (end + rest) == NodeOn(node, "") + end + rest;
      LabelSplits(key, NodeOn(node, end), rest);
    case More(key, node, after, lead, tail) =>
      var end := after + ([','] + (lead + ItemsOn(tail, "")));
      ItemsSplit(tail, rest);
      MoreSplits(after, lead, ItemsOn(tail, ""), rest);
      NodeSplits(node, end + rest);
      NodeSplits(node, end);
      assert NodeOn(node, "") + (end + rest) == NodeOn(node, "") + end + rest;
      LabelSplits(key, NodeOn(node, end), rest);
  }

  lemma LastSplits(after: string, comma: Option<string>, rest: string)
    ensures after + CommaOn(comma, rest) == after + CommaOn(comma, "") + rest
  {
    if comma.Some? {
      assert comma.value + "" == comma.value;
      GroupSplits(after, [','], comma.value, rest);
    } else {
      assert after + "" == after;
    }
  }

  lemma MoreSplits(after: string, lead: string, s: string, rest: string)
    ensures after + ([','] + (lead + (s + rest))) == after + ([','] + (lead + s)) + rest
  {
    assert lead + (s + rest) == lead + s + rest;
    GroupSplits(after, [','], lead + s, rest);
  }

  /** A literal ends in a visible character that is not a semicolon. */
  lemma NodeEnd(k: Stage, n: Node)
    requires GoodNode(k, n)
    ensures var s := NodeOn(n, "");
            s != "" && '!' <= s[|s| - 1] <= '~' && s[|s| - 1] != ';'
  {
    match n
    case Scalar(text) =>
      Json.ScalarChars(text);
      assert text + "" == text && text[|text| - 1] in text;
    case Str(content, quote) => QuotedSplits(content, quote, "", "");
    case Empty(_, _) =>
    case Group(braces, open, items) => ItemsSplit(items, [Json.Closer(braces)] + "");
  }

  // ---------- lines 76 to 87: header, outer semicolons, outer white space ----------

  function HeaderParts(h: Export): seq<string> {
    Chars("export") + ([h.w1] + (Chars("const") + ([h.w2] + (Chars("data") + [h.w3, "=", h.w4]))))
  }

  lemma PlusFits(ws: string, next: Pattern, parts: seq<string>)
    requires ws != "" && AllBelong(ws, Space) && Fits(next, parts)
    ensures Fits(Then(Space, Plus, next), [ws] + parts) && Flatten([ws] + parts) == ws + Flatten(parts)
  {
    assert ([ws] + parts)[1..] == parts;
  }

  lemma AfterHeaderFits(w3: string, w4: string)
    requires AllBelong(w3, Space) && AllBelong(w4, Space)
    ensures Fits(AfterHeader(), [w3, "=", w4]) && Flatten([w3, "=", w4]) == w3 + ("=" + w4)
  {
    var p3 := [w3, "=", w4];
    assert p3[1..] == ["=", w4] && ["=", w4][1..] == [w4] && [w4][1..] == [];
    assert Fits(Then(Is('='), Once, Then(Space, Star, Match0)), ["=", w4]);
    FlattenThree(w3, "=", w4);
  }

  lemma HeaderFits(h: Export)
    requires h.w1 != "" && h.w2 != "" && AllBelong(h.w1, Space) && AllBelong(h.w2, Space)
    requires AllBelong(h.w3, Space) && AllBelong(h.w4, Space)
    ensures Fits(HeaderPattern(), HeaderParts(h))
    ensures Flatten(HeaderParts(h)) == HeaderOn(Some(h), "")
  {
    var p3 := [h.w3, "=", h.w4];
    AfterHeaderFits(h.w3, h.w4);
    LiteralFits("data", AfterHeader(), p3);
    var p2 := Chars("data") + p3;
    PlusFits(h.w2, Literal("data", AfterHeader()), p2);
    LiteralFits("const", Then(Space, Plus, Literal("data", AfterHeader())), [h.w2] + p2);
    var p1 := Chars("const") + ([h.w2] + p2);
    var next := Literal("const", Then(Space, Plus, Literal("data", AfterHeader())));
    PlusFits(h.w1, next, p1);
    LiteralFits("export", Then(Space, Plus, next), [h.w1] + p1);
    var text := HeaderOn(Some(h), "");
    assert text + "" == text;
  }

  lemma HeaderGoes(h: Export, rest: string)
    requires h.w1 != "" && h.w2 != "" && AllBelong(h.w1, Space) && AllBelong(h.w2, Space)
    requires AllBelong(h.w3, Space) && AllBelong(h.w4, Space)
    requires rest != "" && !IsSpace(rest[0])
    ensures ReplaceAll(Header(), HeaderOn(Some(h), rest)) == ReplaceAll(Header(), rest)
  {
    var text, parts := HeaderOn(Some(h), ""), HeaderParts(h);
    HeaderFits(h);
    HeaderIsDeterministic();
    assert text + rest == HeaderOn(Some(h), rest);
    ExactMatchGoes(Header(), text, rest, parts);
  }

  lemma ExactMatchGoes(rule: Rule, text: string, rest: string, parts: seq<string>)
    requires Deterministic(rule.pattern) && rule.pattern.Then? && rule.template == []
    requires Fits(rule.pattern, parts) && Flatten(parts) == text && text != ""
    requires rest != "" && !Belongs(rest[0], LastClass(rule.pattern))
    ensures ReplaceAll(rule, text + rest) == ReplaceAll(rule, rest)
  {
    MatchExact(rule.pattern, parts, rest);
    MatchHere(rule, text, rest, parts);
    assert Expand(rule.template, parts) == "";
  }

  lemma TailBoundary(k: Stage, tail: string)
    requires IsTail(tail)
    ensures Boundary(k, tail)
  {
    if tail != "" {
      assert tail[0] in tail;
    }
  }

  lemma TailIsIdle(k: Stage, tail: string)
    requires IsTail(tail) && k != CleanupStage
    ensures ReplaceAll(RuleOf(k), tail) == tail
  {
    if k == SemicolonStage {
      SemicolonsStay(tail);
    } else {
      TailStartsNothing(k, tail);
      IdleText(k, tail, "");
      assert tail + "" == tail;
    }
  }

  lemma TailStartsNothing(k: Stage, tail: string)
    requires IsTail(tail) && k != CleanupStage && k != SemicolonStage
    ensures forall c <- tail :: !Starts(k, c)
  {
  }

  lemma SemicolonsStay(tail: string)
    requires IsTail(tail)
    ensures ReplaceAll(Semicolon(), tail) == tail
  {
    assert forall c <- tail :: IsTailChar(c);
    NeededNowhere(Semicolon().pattern, OneOf("}]"), tail);
    NoMatchAtAll(Semicolon(), tail);
  }

  lemma WrappedStage(k: Stage, lead: string, n: Node, tail: string)
    requires k == HeaderStage || k == SemicolonStage
    requires Json.AllWs(lead) && GoodNode(k, n) && IsTail(tail)
    ensures ReplaceAll(RuleOf(k), lead + NodeOn(n, tail)) == lead + NodeOn(n, tail)
  {
    TailIsIdle(k, tail);
    TailBoundary(k, tail);
    WhiteSpace(k, lead, NodeOn(n, tail));
    NodeStage(k, n, tail);
    StageIsIdle(k, n);
  }

  lemma HeaderRemoved(d: Document)
    requires GoodDocument(d)
    ensures ReplaceAll(Header(), SourceText(d)) == d.lead + NodeOn(d.node, d.tail)
  {
    var s := NodeOn(d.node, d.tail);
    WrappedStage(HeaderStage, d.lead, d.node, d.tail);
    if d.header.Some? {
      NodeStart(d.node, HeaderStage, d.tail);
      HeaderGoes(d.header.value, s);
      WhiteSpace(HeaderStage, d.lead, s);
      WhiteSpace(HeaderStage, d.lead, HeaderOn(d.header, s));
    }
  }

  lemma {:induction false} StripTail(a: string, tail: string)
    requires a != "" && a[|a| - 1] != ';'
    ensures StripSemicolons(a + tail) == a + StripSemicolons(tail)
    decreases |tail|
  {
    var s := a + tail;
    if tail == "" {
      assert s == a;
    } else {
      assert s[|s| - 1] == tail[|tail| - 1] && s[..|s| - 1] == a + tail[..|tail| - 1];
      StripTail(a, tail[..|tail| - 1]);
    }
  }

  lemma {:induction false} TrimRightTail(a: string, tail: string)
    requires a != "" && !IsUnicodeSpace(a[|a| - 1])
    ensures TrimRight(a + tail) == a + TrimRight(tail)
    decreases |tail|
  {
    var s := a + tail;
    if tail == "" {
      assert s == a;
    } else {
      assert s[|s| - 1] == tail[|tail| - 1] && s[..|s| - 1] == a + tail[..|tail| - 1];
      TrimRightTail(a, tail[..|tail| - 1]);
    }
  }

  lemma {:induction false} TrimLeftLead(lead: string, s: string)
    requires Json.AllWs(lead) && s != "" && !IsUnicodeSpace(s[0])
    ensures TrimLeft(lead + s) == s
    decreases |lead|
  {
    if lead == "" {
      assert lead + s == s;
    } else {
      assert lead[0] in lead && (lead + s)[1..] == lead[1..] + s;
      TrimLeftLead(lead[1..], s);
    }
  }

  lemma {:induction false} StripKeepsTail(s: string)
    requires IsTail(s)
    ensures IsTail(StripSemicolons(s))
    decreases |s|
  {
    if s != "" && s[|s| - 1] == ';' {
      StripKeepsTail(s[..|s| - 1]);
    }
  }

  lemma {:induction false} TrimKeepsTail(s: string)
    requires IsTail(s)
    ensures IsTail(TrimRight(s))
    decreases |s|
  {
    if s != "" && IsUnicodeSpace(s[|s| - 1]) {
      TrimKeepsTail(s[..|s| - 1]);
    }
  }

  lemma Trims(k: Stage, lead: string, n: Node, tail: string)
    requires Json.AllWs(lead) && GoodNode(k, n)
    ensures Trim(lead + NodeOn(n, tail)) == NodeOn(n, TrimRight(tail))
  {
    NodeStart(n, k, tail);
    TrimLeftLead(lead, NodeOn(n, tail));
    NodeEnd(k, n);
    NodeSplits(n, tail);
    NodeSplits(n, TrimRight(tail));
    TrimRightTail(NodeOn(n, ""), tail);
  }

  lemma Strips(k: Stage, lead: string, n: Node, tail: string)
    requires GoodNode(k, n)
    ensures StripSemicolons(lead + NodeOn(n, tail)) == lead + NodeOn(n, StripSemicolons(tail))
  {
    var body := NodeOn(n, "");
    var a := lead + body;
    NodeEnd(k, n);
    NodeSplits(n, tail);
    NodeSplits(n, StripSemicolons(tail));
    assert a[|a| - 1] == body[|body| - 1];
    Regroup("", lead, body, tail);
    Regroup("", lead, body, StripSemicolons(tail));
    StripTail(a, tail);
  }

  lemma UnwrapsDocument(d: Document)
    requires GoodDocument(d)
    ensures var tail := TrimRight(StripSemicolons(d.tail));
            IsTail(tail) && Unwrapped(SourceText(d)) == NodeOn(d.node, tail)
  {
    HeaderRemoved(d);
    StageIsIdle(HeaderStage, d.node);
    GoodAfter(HeaderStage, SemicolonStage, d.node);
    WrappedStage(SemicolonStage, d.lead, d.node, d.tail);
    Strips(HeaderStage, d.lead, d.node, d.tail);
    Trims(HeaderStage, d.lead, d.node, StripSemicolons(d.tail));
    StripKeepsTail(d.tail);
    TrimKeepsTail(StripSemicolons(d.tail));
  }

  // ---------- lines 91 to 110: the rewriting proper ----------

  /** The literal with double quotes, no trailing commas, and its names in quotes. */
  function Normal(n: Node): Node {
    NodeAfter(NameStage, NodeAfter(CommaStage, NodeAfter(QuoteStage, n)))
  }

  lemma RewritingStage(k: Stage, n: Node, tail: string)
    requires GoodNode(k, n) && IsTail(tail) && k != CleanupStage
    ensures ReplaceAll(RuleOf(k), NodeOn(n, tail)) == NodeOn(NodeAfter(k, n), tail)
  {
    TailIsIdle(k, tail);
    TailBoundary(k, tail);
    NodeStage(k, n, tail);
  }

  /** What each rewrite needs of the literal it finds. */
  lemma GoodOnTheWay(n: Node)
    requires GoodNode(HeaderStage, n)
    ensures var n1 := NodeAfter(QuoteStage, n);
            var n2 := NodeAfter(CommaStage, n1);
            && GoodNode(QuoteStage, n) && GoodNode(CommaStage, n1) && GoodNode(BraceCommaStage, n2)
            && GoodNode(NameStage, n2) && GoodNode(CleanupStage, Normal(n))
  {
    StageIsIdle(HeaderStage, n);
    GoodAfter(HeaderStage, QuoteStage, n);
    var n1 := NodeAfter(QuoteStage, n);
    GoodAfter(QuoteStage, CommaStage, n);
    GoodAfter(CommaStage, BraceCommaStage, n1);
    GoodAfter(CommaStage, NameStage, n1);
    GoodAfter(NameStage, CleanupStage, NodeAfter(CommaStage, n1));
  }

  lemma RewrittenInSteps(s: string, s1: string, s2: string, s3: string, s4: string)
    requires ReplaceAll(Quote(), s) == s1 && ReplaceAll(Comma(), s1) == s2
    requires ReplaceAll(BraceComma(), s2) == s3 && ReplaceAll(Name(), s3) == s4
    ensures Rewritten(s) == s4
  {
    FirstNameNeverApplies(s3);
  }

  lemma QuotesAndCommas(n: Node, n1: Node, n2: Node, tail: string)
    requires GoodNode(QuoteStage, n) && GoodNode(CommaStage, n1) && IsTail(tail)
    requires n1 == NodeAfter(QuoteStage, n) && n2 == NodeAfter(CommaStage, n1)
    ensures ReplaceAll(Quote(), NodeOn(n, tail)) == NodeOn(n1, tail)
    ensures ReplaceAll(Comma(), NodeOn(n1, tail)) == NodeOn(n2, tail)
  {
    RewritingStage(QuoteStage, n, tail);
    RewritingStage(CommaStage, n1, tail);
  }

  lemma BracesAndNames(n: Node, tail: string)
    requires GoodNode(BraceCommaStage, n) && GoodNode(NameStage, n) && IsTail(tail)
    ensures ReplaceAll(BraceComma(), NodeOn(n, tail)) == NodeOn(n, tail)
    ensures ReplaceAll(Name(), NodeOn(n, tail)) == NodeOn(NodeAfter(NameStage, n), tail)
  {
    RewritingStage(BraceCommaStage, n, tail);
    StageIsIdle(BraceCommaStage, n);
    RewritingStage(NameStage, n, tail);
  }

  lemma RewritesNode(n: Node, tail: string)
    requires GoodNode(HeaderStage, n) && IsTail(tail)
    ensures GoodNode(CleanupStage, Normal(n))
    ensures Rewritten(NodeOn(n, tail)) == NodeOn(Normal(n), tail)
  {
    GoodOnTheWay(n);
    var n1 := NodeAfter(QuoteStage, n);
    var n2 := NodeAfter(CommaStage, n1);
    QuotesAndCommas(n, n1, n2, tail);
    BracesAndNames(n2, tail);
    RewrittenInSteps(NodeOn(n, tail), NodeOn(n1, tail), NodeOn(n2, tail), NodeOn(n2, tail), NodeOn(Normal(n), tail));
  }

  lemma {:induction false} CleanTail(tail: string)
    requires IsTail(tail)
    ensures Json.AllWs(ReplaceAll(AnySemicolon(), tail))
    decreases |tail|
  {
    if tail != "" {
      var c, more := tail[0], tail[1..];
      assert c in tail && tail == [c] + more && IsTail(more);
      CleanTail(more);
      if c == ';' {
        assert Match(Match0, more) == Some([]);
        assert Match(AnySemicolon().pattern, tail) == Some([[c]] + []);
        assert [[c]] + [] == [[c]] && Flatten([[c]]) == [c] + Flatten([]);
        MatchHere(AnySemicolon(), [c], more, [[c]]);
        assert Expand([Text("")], [[c]]) == "" + Expand([], [[c]]);
      } else {
        NoTrigger(AnySemicolon(), [c], more);
      }
    }
  }

  lemma {:induction false} TrimAllWs(s: string)
    requires Json.AllWs(s)
    ensures TrimRight(s) == ""
    decreases |s|
  {
    if s != "" {
      assert s[|s| - 1] in s;
      TrimAllWs(s[..|s| - 1]);
    }
  }

  lemma CleansUp(m: Node, tail: string)
    requires GoodNode(CleanupStage, m) && IsTail(tail)
    ensures Trim(ReplaceAll(AnySemicolon(), NodeOn(m, tail))) == NodeOn(m, "")
  {
    TailBoundary(CleanupStage, tail);
    NodeStage(CleanupStage, m, tail);
    StageIsIdle(CleanupStage, m);
    CleanTail(tail);
    var ws := ReplaceAll(AnySemicolon(), tail);
    TrimAllWs(ws);
    Trims(CleanupStage, "", m, ws);
    assert "" + NodeOn(m, ws) == NodeOn(m, ws);
  }

  /** The converter's output, for every document in the fragment. */
  lemma ConvertsDocument(d: Document)
    requires GoodDocument(d)
    ensures GoodNode(CleanupStage, Normal(d.node))
    ensures Converted(SourceText(d)) == NodeOn(Normal(d.node), "")
  {
    var tail := TrimRight(StripSemicolons(d.tail));
    UnwrapsDocument(d);
    RewritesNode(d.node, tail);
    CleansUp(Normal(d.node), tail);
  }

  // ---------- reading the output ----------

  lemma ReadsEmpty(braces: bool, ws: string, rest: string)
    requires Json.AllWs(ws)
    ensures Json.ReadValue(NodeOn(Empty(braces, ws), rest)) == Some((Json.Container(braces, Json.End), rest))
  {
    var s, t := NodeOn(Empty(braces, ws), rest), [Json.Closer(braces)] + rest;
    assert s[1..] == ws + t && t[1..] == rest;
    Json.SkipsWs(ws, t);
  }

  lemma ReadsName(content: string, before: string, after: string, rest: string)
    requires forall c <- content :: Json.IsPlain(c)
    requires Json.AllWs(before) && Json.AllWs(after) && (rest == "" || !Json.IsWs(rest[0]))
    ensures Json.ReadName(LabelOn(Quoted(content, '"', before, after), rest)) == Some((Some(content), rest))
  {
    var t := [':'] + (after + rest);
    Json.ReadsString(content, before + t);
    Json.SkipsWs(before, t);
    assert Json.SkipWs(t) == t && t[1..] == after + rest;
    Json.SkipsWs(after, rest);
    assert Json.SkipWs(rest) == rest;
  }

  predicate Delimited(rest: string) {
    rest == "" || Json.IsDelimiter(rest[0])
  }

  /** The reader takes a double-quoted literal without trailing commas for what it means, unless a name
      is left unquoted: then it rejects it. */
  lemma {:induction false} ReadsNode(n: Node, rest: string)
    requires GoodNode(CleanupStage, n) && DoubleQuoted(n) && Delimited(rest)
    ensures Json.ReadValue(NodeOn(n, rest)) == if BareName(n) then None else Some((Meaning(n), rest))
    decreases n, 0
  {
    match n
    case Scalar(text) => Json.ReadsScalar(text, rest);
    case Str(content, _) => Json.ReadsString(content, rest);
    case Empty(braces, ws) => ReadsEmpty(braces, ws, rest);
    case Group(braces, open, items) =>
      ItemsStart2(items, braces, [Json.Closer(braces)] + rest);
      ReadsItems(items, braces, rest);
      ReadsGroup(braces, open, ItemsOn(items, [Json.Closer(braces)] + rest));
  }

  /** A bracket that is not closed at once is read by reading its items. */
  lemma ReadsGroup(braces: bool, open: string, t: string)
    requires Json.AllWs(open) && t != "" && Json.SkipWs(t) == t && t[0] != Json.Closer(braces)
    ensures var r := Json.ReadItems(t, braces);
            Json.ReadValue([Opener(braces)] + (open + t))
            == if r.None? then None else Some((Json.Container(braces, r.value.0), r.value.1))
  {
    var s := [Opener(braces)] + (open + t);
    assert s[1..] == open + t;
    Json.SkipsWs(open, t);
  }

  lemma ItemsStart2(items: Items, braces: bool, rest: string)
    requires GoodItems(CleanupStage, items, braces)
    ensures var s := ItemsOn(items, rest);
            s != "" && !Json.IsWs(s[0]) && s[0] != Json.Closer(braces) && Json.SkipWs(s) == s
  {
    ItemsStart(CleanupStage, items, braces, rest);
    if items.key.Bare? {
      assert items.key.name[0] in items.key.name && ItemsOn(items, rest)[0] == items.key.name[0];
    }
  }

  /** What follows the value of an item. */
  function EndOn(items: Items, rest: string): string {
    match items
    case Last(_, _, after, comma) => after + CommaOn(comma, rest)
    case More(_, _, after, lead, tail) => after + ([','] + (lead + ItemsOn(tail, rest)))
  }

  lemma EndDelimited(items: Items, braces: bool, rest: string)
    requires GoodItems(CleanupStage, items, braces)
    ensures Delimited(EndOn(items, [Json.Closer(braces)] + rest))
  {
    if items.after != "" {
      assert items.after[0] in items.after && EndOn(items, [Json.Closer(braces)] + rest)[0] == items.after[0];
    }
  }

  lemma {:induction false} ReadsItems(items: Items, braces: bool, rest: string)
    requires GoodItems(CleanupStage, items, braces) && DoubleQuotedItems(items)
    ensures Json.ReadItems(ItemsOn(items, [Json.Closer(braces)] + rest), braces)
            == if BareNames(items) then None else Some((MeaningOf(items), rest))
    decreases items, 1
  {
    var end := EndOn(items, [Json.Closer(braces)] + rest);
    var value := NodeOn(items.node, end);
    var s := ItemsOn(items, [Json.Closer(braces)] + rest);
    assert s == LabelOn(items.key, value);
    ReadsKey(items.key, braces, items.node, end);
    if !items.key.Bare? {
      EndDelimited(items, braces, rest);
      ReadsNode(items.node, end);
      if !BareName(items.node) {
        ReadsEnd(items, braces, rest);
        if items.More? {
          ReadsItems(items.tail, braces, rest);
          ItemBeforeMore(s, braces, NameOf(items.key), value, Meaning(items.node), end);
        } else {
          LastItem(s, braces, NameOf(items.key), value, Meaning(items.node), end);
        }
      }
    }
  }

  function KeyRead(s: string, braces: bool): Option<(Option<string>, string)> {
    if braces then Json.ReadName(s) else Some((None, s))
  }

  /** A value before the closing bracket is the last item. */
  lemma LastItem(s: string, braces: bool, name: Option<string>, t: string, v: Json.Value, u: string)
    requires KeyRead(s, braces) == Some((name, t)) && Json.ReadValue(t) == Some((v, u))
    requires var w := Json.SkipWs(u); w != "" && w[0] == Json.Closer(braces)
    ensures Json.ReadItems(s, braces) == Some((Json.Item(name, v, Json.End), Json.SkipWs(u)[1..]))
  {
  }

  /** A value before a comma is followed by the items behind the comma. */
  lemma ItemBeforeMore(s: string, braces: bool, name: Option<string>, t: string, v: Json.Value, u: string)
    requires KeyRead(s, braces) == Some((name, t)) && Json.ReadValue(t) == Some((v, u))
    requires var w := Json.SkipWs(u); w != "" && w[0] == ','
    ensures var more := Json.ReadItems(Json.SkipWs(Json.SkipWs(u)[1..]), braces);
            Json.ReadItems(s, braces)
            == if more.None? then None else Some((Json.Item(name, v, more.value.0), more.value.1))
  {
  }

  lemma ReadsKey(key: Label, braces: bool, node: Node, end: string)
    requires GoodLabel(CleanupStage, key, braces) && GoodNode(CleanupStage, node)
    requires key.Quoted? ==> key.quote == '"'
    ensures var s := NodeOn(node, end);
            KeyRead(LabelOn(key, s), braces)
            == if key.Bare? then None else Some((NameOf(key), s))
  {
    var s := NodeOn(node, end);
    NodeStart(node, CleanupStage, end);
    match key
    case NoName =>
    case Quoted(content, _, before, after) => ReadsName(content, before, after, s);
    case Bare(name, before, after) => assert name[0] in name && LabelOn(key, s)[0] == name[0];
  }

  /** Behind the value of an item the reader finds the closing bracket, or a comma and the next item. */
  lemma ReadsEnd(items: Items, braces: bool, rest: string)
    requires GoodItems(CleanupStage, items, braces)
    ensures var closing := [Json.Closer(braces)] + rest;
            var w := Json.SkipWs(EndOn(items, closing));
            && w != ""
            && (items.Last? ==> w[0] == Json.Closer(braces) && w[1..] == rest)
            && (items.More? ==> w[0] == ',' && Json.SkipWs(w[1..]) == ItemsOn(items.tail, closing))
  {
    var closing := [Json.Closer(braces)] + rest;
    match items
    case Last(_, _, after, _) =>
      Json.SkipsWs(after, closing);
      assert closing[1..] == rest;
    case More(_, _, after, lead, tail) =>
      var t := lead + ItemsOn(tail, closing);
      Json.SkipsWs(after, [','] + t);
      assert ([','] + t)[1..] == t;
      Json.SkipsWs(lead, ItemsOn(tail, closing));
      ItemsStart2(tail, braces, closing);
  }

  // ---------- main results ----------

  lemma NormalForm(n: Node)
    ensures DoubleQuoted(Normal(n)) && Meaning(Normal(n)) == Meaning(n) && BareName(Normal(n)) == SpacedName(n)
  {
    var n1 := NodeAfter(QuoteStage, n);
    var n2 := NodeAfter(CommaStage, n1);
    NamesAfter(QuoteStage, n);
    NamesAfter(CommaStage, n1);
    NamesAfter(NameStage, n2);
    SameMeaning(QuoteStage, n);
    SameMeaning(CommaStage, n1);
    SameMeaning(NameStage, n2);
  }

  /** The converted text reads as the value that was written, in whatever style, if and only if no
      unquoted name is separated from its colon; otherwise it is not JSON at all. */
  lemma ConversionPreservesMeaning(d: Document)
    requires GoodDocument(d)
    ensures Json.Parse(Converted(SourceText(d))) == if SpacedName(d.node) then None else Some(Meaning(d.node))
  {
    ConvertsDocument(d);
    NormalForm(d.node);
    ReadsDocument(Normal(d.node));
  }

  lemma ReadsDocument(m: Node)
    requires GoodNode(CleanupStage, m) && DoubleQuoted(m)
    ensures Json.Parse(NodeOn(m, "")) == if BareName(m) then None else Some(Meaning(m))
  {
    NodeStart(m, CleanupStage, "");
    assert Json.SkipWs(NodeOn(m, "")) == NodeOn(m, "");
    ReadsNode(m, "");
  }

  /** Values all of whose strings are in the fragment. */
  ghost predicate InFragment(v: Json.Value) {
    match v
    case Scalar(text) => Json.IsScalar(text)
    case Str(content) => GoodContent(HeaderStage, content)
    case Array(items) => ItemsInFragment(items, false)
    case Object(items) => ItemsInFragment(items, true)
  }

  ghost predicate ItemsInFragment(items: Json.Items, braces: bool) {
    match items
    case End => true
    case Item(name, value, tail) =>
      (if braces then name.Some? && GoodContent(HeaderStage, name.value) else name.None?)
      && InFragment(value) && ItemsInFragment(tail, braces)
  }

  /** One way to write a value. */
  function Written(v: Json.Value): Node {
    match v
    case Scalar(text) => Scalar(text)
    case Str(content) => Str(content, '\'')
    case Array(items) => if items.End? then Empty(false, "") else Group(false, "", WrittenItems(items))
    case Object(items) => if items.End? then Empty(true, "") else Group(true, "", WrittenItems(items))
  }

  function WrittenItems(items: Json.Items): Items
    requires items.Item?
  {
    var key := if items.name.None? then NoName else Quoted(items.name.value, '\'', "", "");
    if items.tail.End? then Last(key, Written(items.value), "", Some(""))
    else More(key, Written(items.value), "", "", WrittenItems(items.tail))
  }

  lemma {:induction false} WrittenIsGood(v: Json.Value)
    requires InFragment(v)
    ensures GoodNode(HeaderStage, Written(v)) && !SpacedName(Written(v)) && Meaning(Written(v)) == v
    decreases v
  {
    match v
    case Scalar(_) | Str(_) =>
    case Array(items) => if items.Item? { WrittenItemsAreGood(items, false); }
    case Object(items) => if items.Item? { WrittenItemsAreGood(items, true); }
  }

  lemma {:induction false} WrittenItemsAreGood(items: Json.Items, braces: bool)
    requires ItemsInFragment(items, braces) && items.Item?
    ensures GoodItems(HeaderStage, WrittenItems(items), braces) && !SpacedNames(WrittenItems(items))
    ensures MeaningOf(WrittenItems(items)) == items
    decreases items
  {
    WrittenIsGood(items.value);
    if items.tail.Item? {
      WrittenItemsAreGood(items.tail, braces);
    }
  }

  /** The fragment loses no value: every value in it has a document that converts to JSON text for it. */
  lemma EveryValueIsWritten(v: Json.Value)
    requires InFragment(v)
    ensures exists d :: GoodDocument(d) && Json.Parse(Converted(SourceText(d))) == Some(v)
  {
    var d := Document("", None, Written(v), "");
    WrittenIsGood(v);
    ConversionPreservesMeaning(d);
    assert GoodDocument(d) && Json.Parse(Converted(SourceText(d))) == Some(v);
  }

  /** One unquoted name with a blank before its colon. */
  const SPACED_NAME := Group(true, "", Last(Bare("a", " ", ""), Scalar("1"), "", None))

  lemma SpacedNameIsGood()
    ensures GoodNode(HeaderStage, SPACED_NAME) && SpacedName(SPACED_NAME)
  {
    assert Json.IsScalar("1");
    assert GoodLabel(HeaderStage, Bare("a", " ", ""), true);
  }

  lemma SpacedNameText()
    ensures NodeOn(SPACED_NAME, "") == "{a :1}"
  {
    assert NodeOn(Scalar("1"), "" + CommaOn(None, "}")) == "1}";
    assert LabelOn(Bare("a", " ", ""), "1}") == "a :1}";
  }

  lemma SpacedIsLost(d: Document, js: string)
    requires GoodDocument(d) && SpacedName(d.node) && SourceText(d) == js
    ensures Json.Parse(Converted(js)) == None
  {
    ConversionPreservesMeaning(d);
  }

  /** A blank between name and colon is enough for the output not to be JSON. */
  lemma SpacedNameIsLost(js: string)
    requires js == "{a :1}"
    ensures Json.Parse(Converted(js)) == None
  {
    SpacedNameIsGood();
    SpacedNameText();
    assert "" + js == js;
    SpacedIsLost(Document("", None, SPACED_NAME, ""), js);
  }
}
