/** One stage of convertJSToJSON on a written-out literal is the same stage on its structure. */
module JsStages {
  import opened Wrappers
  import opened Regexp
  import opened JsToJson
  import opened JsFragment
  import Json

  lemma QuotedKey(k: Stage, content: string, quote: char, before: string, after: string, rest: string)
    requires GoodContent(k, content) && IsQuote(quote) && Json.AllWs(before) && Json.AllWs(after)
    ensures ReplaceAll(RuleOf(k), LabelOn(Quoted(content, quote, before, after), rest))
            == LabelOn(Quoted(content, QuoteAfter(k, quote), before, after), ReplaceAll(RuleOf(k), rest))
  {
    QuotedLeaf(k, content, quote, before + ([':'] + (after + rest)));
    WhiteSpace(k, before, [':'] + (after + rest));
    PlainText(k, [':'], after + rest);
    WhiteSpace(k, after, rest);
  }

  lemma BareIsHarmless(k: Stage, name: string, before: string, after: string, rest: string)
    requires name != "" && AllBelong(name, Word) && Json.AllWs(before)
    requires k == NameStage ==> before != ""
    ensures Harmless(k, LabelOn(Bare(name, before, after), rest))
  {
    var tail := before + ([':'] + (after + rest));
    assert name[0] in name && (name + tail)[0] == name[0];
    if k == NameStage {
      assert before[0] in before && tail[0] == before[0];
      assert forall c <- name :: IsWord(c);
      NotAName(name, tail);
    }
  }

  lemma QuotedIsHarmless(k: Stage, content: string, quote: char, rest: string)
    requires IsQuote(quote)
    ensures Harmless(k, QuotedOn(content, quote, rest))
  {
  }

  lemma NamedKey(sep: char, ws: string, name: string, after: string, rest: string)
    requires (sep == '{' || sep == ',') && Json.AllWs(ws) && name != "" && AllBelong(name, Word) && Json.AllWs(after)
    ensures ReplaceAll(Name(), [sep] + (ws + LabelOn(Bare(name, "", after), rest)))
            == [sep] + (ws + LabelOn(Quoted(name, '"', "", after), ReplaceAll(Name(), rest)))
  {
    var r := ReplaceAll(Name(), rest);
    assert "" + ([':'] + (after + rest)) == [':'] + (after + rest);
    assert "" + ([':'] + (after + r)) == [':'] + (after + r);
    NameLeaf(sep, ws, name, after + rest);
    WhiteSpace(NameStage, after, rest);
  }

  lemma QuotedKeyStage(k: Stage, sep: char, ws: string, key: Label, braces: bool, s: string)
    requires IsSeparator(sep) && Json.AllWs(ws) && key.Quoted? && GoodLabel(k, key, braces)
    ensures ReplaceAll(RuleOf(k), [sep] + (ws + LabelOn(key, s)))
            == [sep] + (ws + LabelOn(LabelAfter(k, key), ReplaceAll(RuleOf(k), s)))
  {
    QuotedIsHarmless(k, key.content, key.quote, key.before + ([':'] + (key.after + s)));
    SeparatorLeaf(k, sep, ws, LabelOn(key, s));
    QuotedKey(k, key.content, key.quote, key.before, key.after, s);
  }

  /** A separator, white space and the key of an item. */
  lemma KeyStage(k: Stage, sep: char, ws: string, key: Label, braces: bool, node: Node, rest: string)
    requires sep == ',' || sep == Opener(braces)
    requires Json.AllWs(ws) && GoodLabel(k, key, braces) && GoodNode(k, node) && MayFollow(rest)
    ensures var s := NodeOn(node, rest);
            ReplaceAll(RuleOf(k), [sep] + (ws + LabelOn(key, s)))
            == [sep] + (ws + LabelOn(LabelAfter(k, key), ReplaceAll(RuleOf(k), s)))
  {
    var s := NodeOn(node, rest);
    match key
    case NoName =>
      NodeIsHarmless(k, node, rest);
      SeparatorLeaf(k, sep, ws, s);
    case Quoted(_, _, _, _) => QuotedKeyStage(k, sep, ws, key, braces, s);
    case Bare(name, before, after) =>
      if k == NameStage && before == "" {
        NamedKey(sep, ws, name, after, s);
      } else {
        BareIsHarmless(k, name, before, after, s);
        SeparatorLeaf(k, sep, ws, LabelOn(key, s));
        BareLeaf(k, name, before, after, s);
      }
  }

  /** What follows a value inside brackets never disturbs the value. */
  lemma InnerBoundary(k: Stage, after: string, c: char, rest: string)
    requires Json.AllWs(after) && (c == ',' || c == '}' || c == ']')
    requires c == ',' && k == BraceCommaStage ==> Match(CommaBracket(), [c] + rest).None?
    ensures Boundary(k, after + ([c] + rest))
  {
    var s := after + ([c] + rest);
    if after == "" {
      assert s == [c] + rest;
    } else {
      assert after[0] in after && s[0] == after[0];
    }
  }

  lemma ItemsStart(k: Stage, items: Items, braces: bool, rest: string)
    requires GoodItems(k, items, braces)
    ensures var s := ItemsOn(items, rest); s != "" && !IsSpace(s[0]) && s[0] != ']'
  {
    var key := items.key;
    if key.Bare? {
      assert key.name[0] in key.name && ItemsOn(items, rest)[0] == key.name[0];
    } else if key.NoName? {
      match items
      case Last(_, node, after, comma) => NodeStart(node, k, after + CommaOn(comma, rest));
      case More(_, node, after, lead, tail) => NodeStart(node, k, after + ([','] + (lead + ItemsOn(tail, rest))));
    }
  }

  lemma CommaBoundary(k: Stage, after: string, lead: string, tail: Items, braces: bool, rest: string)
    requires Json.AllWs(after) && Json.AllWs(lead) && GoodItems(k, tail, braces)
    ensures Boundary(k, after + ([','] + (lead + ItemsOn(tail, rest))))
  {
    var s := ItemsOn(tail, rest);
    ItemsStart(k, tail, braces, rest);
    var bracket := Then(Is(']'), Once, Match0);
    assert Match(bracket, s).None?;
    SpacedMatch(Is(','), bracket, ',', lead, s);
    InnerBoundary(k, after, ',', lead + s);
  }

  lemma LastBoundary(k: Stage, after: string, comma: Option<string>, closer: char, rest: string)
    requires Json.AllWs(after) && (closer == '}' || closer == ']')
    requires comma.Some? ==> !CommasGone(k)
    ensures Boundary(k, after + CommaOn(comma, [closer] + rest))
  {
    if comma.Some? {
      InnerBoundary(k, after, ',', comma.value + ([closer] + rest));
    } else {
      InnerBoundary(k, after, closer, rest);
    }
  }

  lemma CommaStays(k: Stage, ws: string, rest: string)
    requires Json.AllWs(ws) && k != CommaStage && !CommasGone(k)
    ensures ReplaceAll(RuleOf(k), [','] + (ws + rest)) == [','] + (ws + ReplaceAll(RuleOf(k), rest))
  {
    NoTrigger(RuleOf(k), [','], ws + rest);
    WhiteSpace(k, ws, rest);
  }

  /** The end of the last item: white space, a trailing comma perhaps, and the closing bracket. */
  lemma LastStage(k: Stage, after: string, comma: Option<string>, closer: char, rest: string)
    requires Json.AllWs(after) && (closer == '}' || closer == ']')
    requires comma.Some? ==> Json.AllWs(comma.value) && !CommasGone(k)
    ensures var r := ReplaceAll(RuleOf(k), [closer] + rest);
            ReplaceAll(RuleOf(k), after + CommaOn(comma, [closer] + rest))
            == if k == CommaStage && comma.Some? then after + comma.value + CommaOn(None, r)
               else after + CommaOn(comma, r)
  {
    WhiteSpace(k, after, CommaOn(comma, [closer] + rest));
    if comma.Some? {
      if k == CommaStage {
        TrailingComma(comma.value, closer, rest);
        var r := ReplaceAll(RuleOf(k), [closer] + rest);
        assert after + (comma.value + r) == after + comma.value + r;
      } else {
        CommaStays(k, comma.value, [closer] + rest);
      }
    }
  }

  /** A stage rewrites a value and then goes on behind it. */
  lemma {:induction false} NodeStage(k: Stage, n: Node, rest: string)
    requires GoodNode(k, n) && Boundary(k, rest)
    ensures ReplaceAll(RuleOf(k), NodeOn(n, rest)) == NodeOn(NodeAfter(k, n), ReplaceAll(RuleOf(k), rest))
    decreases n
  {
    match n
    case Scalar(text) => ScalarLeaf(k, text, rest);
    case Str(content, quote) => QuotedLeaf(k, content, quote, rest);
    case Empty(braces, ws) =>
      EmptyStage(k, braces, ws, rest);
    case Group(braces, open, items) =>
      ItemsStage(k, Opener(braces), open, items, braces, rest);
      CloserLeaf(k, braces, rest);
  }

  lemma EmptyStage(k: Stage, braces: bool, ws: string, rest: string)
    requires Json.AllWs(ws) && Boundary(k, rest)
    ensures ReplaceAll(RuleOf(k), NodeOn(Empty(braces, ws), rest))
            == NodeOn(Empty(braces, ws), ReplaceAll(RuleOf(k), rest))
  {
    var sep, s := Opener(braces), [Json.Closer(braces)] + rest;
    CloserLeaf(k, braces, rest);
    if k == CommaStage {
      NoTrigger(Comma(), [sep], ws + s);
      WhiteSpace(k, ws, s);
    } else {
      NotAWord(s);
      SeparatorLeaf(k, sep, ws, s);
    }
  }

  lemma {:induction false} ItemsStage(k: Stage, sep: char, ws: string, items: Items, braces: bool, rest: string)
    requires sep == ',' || sep == Opener(braces)
    requires Json.AllWs(ws) && GoodItems(k, items, braces)
    ensures var s := [Json.Closer(braces)] + rest;
            ReplaceAll(RuleOf(k), [sep] + (ws + ItemsOn(items, s)))
            == [sep] + (ws + ItemsOn(ItemsAfter(k, items), ReplaceAll(RuleOf(k), s)))
    decreases items
  {
    var closer := Json.Closer(braces);
    var s := [closer] + rest;
    match items
    case Last(key, node, after, comma) =>
      var t := after + CommaOn(comma, s);
      LastBoundary(k, after, comma, closer, rest);
      KeyStage(k, sep, ws, key, braces, node, t);
      NodeStage(k, node, t);
      LastStage(k, after, comma, closer, rest);
    case More(key, node, after, lead, tail) =>
      var t := [','] + (lead + ItemsOn(tail, s));
      CommaBoundary(k, after, lead, tail, braces, s);
      KeyStage(k, sep, ws, key, braces, node, after + t);
      NodeStage(k, node, after + t);
      WhiteSpace(k, after, t);
      ItemsStage(k, ',', lead, tail, braces, rest);
  }
}
