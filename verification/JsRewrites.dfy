/** What the rewrites of convertJSToJSON (rpcscan/jsfilescan.go) do to any text, in terms of the text. */
module JsRewrites {
  import opened Wrappers
  import opened Regexp
  import opened JsToJson
  import opened JsFragment
  import JsTheorem

  predicate IsClosing(c: char) {
    c == '}' || c == ']'
  }

  /** White space, possibly none, and a closing bracket. */
  ghost predicate Closes(s: string) {
    exists ws, b :: AllBelong(ws, Space) && IsClosing(b) && ws + [b] <= s
  }

  /** A text that fits part by part is replaced, if the pattern ends in a class taken once. */
  lemma Replaced(rule: Rule, parts: seq<string>, text: string, rest: string)
    requires IsRule(rule) && EndsOnce(rule.pattern) && Fits(rule.pattern, parts) && Flatten(parts) == text && text != ""
    ensures ReplaceAll(rule, text + rest) == Expand(rule.template, parts) + ReplaceAll(rule, rest)
  {
    RulesAreDeterministic(rule);
    MatchExact(rule.pattern, parts, rest);
    MatchHere(rule, text, rest, parts);
  }

  lemma FlattenTwo(a: string, b: string)
    ensures Flatten([a, b]) == a + b
  {
    assert [a, b][1..] == [b] && [b][1..] == [];
    assert Flatten([b]) == b + Flatten([]);
  }

  lemma FlattenThree(a: string, b: string, c: string)
    ensures Flatten([a, b, c]) == a + b + c
  {
    assert [a, b, c][1..] == [b, c];
    FlattenTwo(b, c);
  }

  lemma FlattenFour(a: string, b: string, c: string, d: string)
    ensures Flatten([a, b, c, d]) == a + b + c + d
  {
    assert [a, b, c, d][1..] == [b, c, d];
    FlattenThree(b, c, d);
  }

  lemma FitsThree(p: Pattern, a: string, b: string, c: string)
    requires p.Then? && p.next.Then? && p.next.next.Then? && p.next.next.next.Match0?
    ensures Fits(p, [a, b, c]) <==> FitsPiece(p.cls, p.q, a) && FitsPiece(p.next.cls, p.next.q, b)
                                    && FitsPiece(p.next.next.cls, p.next.next.q, c)
  {
    assert [a, b, c][1..] == [b, c] && [b, c][1..] == [c] && [c][1..] == [];
    assert Fits(p.next.next.next, []);
    assert Fits(p.next.next, [c]) <==> FitsPiece(p.next.next.cls, p.next.next.q, c);
  }

  lemma FitsFour(p: Pattern, a: string, b: string, c: string, d: string)
    requires p.Then? && p.next.Then? && p.next.next.Then? && p.next.next.next.Then?
    requires p.next.next.next.next.Match0?
    ensures Fits(p, [a, b, c, d]) <==> FitsPiece(p.cls, p.q, a) && Fits(p.next, [b, c, d])
  {
    assert [a, b, c, d][1..] == [b, c, d];
  }

  lemma ExpandTwo(parts: seq<string>, i: nat, j: nat)
    requires i < |parts| && j < |parts|
    ensures Expand([Part(i), Part(j)], parts) == parts[i] + parts[j]
  {
    assert [Part(i), Part(j)][1..] == [Part(j)] && [Part(j)][1..] == [];
    assert Expand([Part(j)], parts) == parts[j] + Expand([], parts);
  }

  // ---------- a character before a closing bracket ----------

  ghost predicate DropsBeforeClosing(rule: Rule, c: char) {
    IsRule(rule) && rule == Rule(Then(Is(c), Once, ClosingAfterSpace()), [Part(1), Part(2)])
  }

  lemma Drops(rule: Rule, c: char, ws: string, b: char, rest: string)
    requires DropsBeforeClosing(rule, c) && AllBelong(ws, Space) && IsClosing(b)
    ensures ReplaceAll(rule, [c] + ws + [b] + rest) == ws + [b] + ReplaceAll(rule, rest)
  {
    FitsThree(rule.pattern, [c], ws, [b]);
    FlattenThree([c], ws, [b]);
    Replaced(rule, [[c], ws, [b]], [c] + ws + [b], rest);
    ExpandTwo([[c], ws, [b]], 1, 2);
  }

  lemma ThreeParts(p: Pattern, parts: seq<string>)
    requires p.Then? && p.next.Then? && p.next.next.Then? && p.next.next.next.Match0? && Fits(p, parts)
    ensures |parts| == 3 && parts == [parts[0], parts[1], parts[2]]
  {
    assert Fits(p.next, parts[1..]) && Fits(p.next.next, parts[1..][1..]);
    assert Fits(p.next.next.next, parts[1..][1..][1..]);
  }

  lemma FittingCloses(rule: Rule, c: char, parts: seq<string>, d: char, rest: string)
    requires DropsBeforeClosing(rule, c) && Fits(rule.pattern, parts) && Flatten(parts) <= [d] + rest
    ensures d == c && Closes(rest)
  {
    ThreeParts(rule.pattern, parts);
    var ws, b := parts[1], parts[2];
    FitsThree(rule.pattern, parts[0], ws, b);
    FlattenThree(parts[0], ws, b);
    assert parts[0] == [parts[0][0]] && b == [b[0]] && parts[0][0] in parts[0] && b[0] in b;
    FirstApart(parts[0], ws + b, d, rest);
    assert AllBelong(ws, Space) && IsClosing(b[0]) && ws + [b[0]] <= rest;
  }

  lemma Keeps(rule: Rule, c: char, d: char, rest: string)
    requires DropsBeforeClosing(rule, c) && (d != c || !Closes(rest))
    ensures ReplaceAll(rule, [d] + rest) == [d] + ReplaceAll(rule, rest)
  {
    if Match(rule.pattern, [d] + rest).Some? {
      MatchSound(rule.pattern, [d] + rest);
      FittingCloses(rule, c, Match(rule.pattern, [d] + rest).value, d, rest);
    }
    NoMatchHere(rule, d, rest);
  }

  lemma FirstApart(a: string, more: string, d: char, rest: string)
    requires |a| == 1 && a + more <= [d] + rest
    ensures a == [d] && more <= rest
  {
    assert (a + more)[0] == a[0] && (a + more)[1..] == more && ([d] + rest)[1..] == rest;
  }

  /** Line 81, on any text: a semicolon goes if white space and a closing bracket follow, and nothing else
      changes. */
  lemma SemicolonRewrite(ws: string, b: char, c: char, rest: string)
    ensures AllBelong(ws, Space) && IsClosing(b) ==>
              ReplaceAll(Semicolon(), [';'] + ws + [b] + rest) == ws + [b] + ReplaceAll(Semicolon(), rest)
    ensures c != ';' || !Closes(rest) ==> ReplaceAll(Semicolon(), [c] + rest) == [c] + ReplaceAll(Semicolon(), rest)
  {
    if AllBelong(ws, Space) && IsClosing(b) {
      Drops(Semicolon(), ';', ws, b, rest);
    }
    if c != ';' || !Closes(rest) {
      Keeps(Semicolon(), ';', c, rest);
    }
  }

  /** Line 95: so does a comma. */
  lemma CommaRewrite(ws: string, b: char, c: char, rest: string)
    ensures AllBelong(ws, Space) && IsClosing(b) ==>
              ReplaceAll(Comma(), [','] + ws + [b] + rest) == ws + [b] + ReplaceAll(Comma(), rest)
    ensures c != ',' || !Closes(rest) ==> ReplaceAll(Comma(), [c] + rest) == [c] + ReplaceAll(Comma(), rest)
  {
    if AllBelong(ws, Space) && IsClosing(b) {
      Drops(Comma(), ',', ws, b, rest);
    }
    if c != ',' || !Closes(rest) {
      Keeps(Comma(), ',', c, rest);
    }
  }

  // ---------- a comma between brackets ----------

  /** A comma, white space, possibly none, and a closing square bracket. */
  ghost predicate CommaCloses(s: string) {
    exists ws :: AllBelong(ws, Space) && "," + ws + "]" <= s
  }

  lemma ExpandBraceComma(ws: string)
    ensures Expand(BraceComma().template, ["}", ",", ws, "]"]) == "}" + ws + "]"
  {
    var parts := ["}", ",", ws, "]"];
    var template := [Text("}"), Part(2), Part(3)];
    assert template[1..] == [Part(2), Part(3)];
    ExpandTwo(parts, 2, 3);
    assert Expand(template, parts) == "}" + (ws + "]");
  }

  lemma DropsBraceComma(ws: string, rest: string)
    requires AllBelong(ws, Space)
    ensures ReplaceAll(BraceComma(), "}," + ws + "]" + rest) == "}" + ws + "]" + ReplaceAll(BraceComma(), rest)
  {
    var p := BraceComma().pattern;
    FitsFour(p, "}", ",", ws, "]");
    FitsThree(p.next, ",", ws, "]");
    FlattenFour("}", ",", ws, "]");
    Replaced(BraceComma(), ["}", ",", ws, "]"], "}," + ws + "]", rest);
    ExpandBraceComma(ws);
  }

  lemma FourParts(p: Pattern, parts: seq<string>)
    requires p.Then? && p.next.Then? && p.next.next.Then? && p.next.next.next.Then? && Fits(p, parts)
    requires p.next.next.next.next.Match0?
    ensures |parts| == 4 && parts == [parts[0], parts[1], parts[2], parts[3]]
  {
    ThreeParts(p.next, parts[1..]);
  }

  lemma FittingCommaCloses(parts: seq<string>, c: char, rest: string)
    requires Fits(BraceComma().pattern, parts) && Flatten(parts) <= [c] + rest
    ensures c == '}' && CommaCloses(rest)
  {
    var p := BraceComma().pattern;
    FourParts(p, parts);
    FitsFour(p, parts[0], parts[1], parts[2], parts[3]);
    FitsThree(p.next, parts[1], parts[2], parts[3]);
    FlattenFour(parts[0], parts[1], parts[2], parts[3]);
    OneOfOne(parts[0], '}');
    OneOfOne(parts[1], ',');
    OneOfOne(parts[3], ']');
    assert parts[0] + (parts[1] + parts[2] + parts[3]) == Flatten(parts);
    FirstApart(parts[0], parts[1] + parts[2] + parts[3], c, rest);
    assert AllBelong(parts[2], Space) && "," + parts[2] + "]" <= rest;
  }

  lemma KeepsBraceComma(c: char, rest: string)
    requires c != '}' || !CommaCloses(rest)
    ensures ReplaceAll(BraceComma(), [c] + rest) == [c] + ReplaceAll(BraceComma(), rest)
  {
    var p := BraceComma().pattern;
    if Match(p, [c] + rest).Some? {
      MatchSound(p, [c] + rest);
      FittingCommaCloses(Match(p, [c] + rest).value, c, rest);
    }
    NoMatchHere(BraceComma(), c, rest);
  }

  lemma OneOfOne(s: string, c: char)
    requires FitsPiece(Is(c), Once, s)
    ensures s == [c]
  {
    assert s[0] in s;
  }

  /** Line 98, on any text: a comma between a closing brace and, after white space, a closing square bracket
      goes, and nothing else changes. */
  lemma BraceCommaRewrite(ws: string, c: char, rest: string)
    ensures AllBelong(ws, Space) ==>
              ReplaceAll(BraceComma(), "}," + ws + "]" + rest) == "}" + ws + "]" + ReplaceAll(BraceComma(), rest)
    ensures c != '}' || !CommaCloses(rest) ==>
              ReplaceAll(BraceComma(), [c] + rest) == [c] + ReplaceAll(BraceComma(), rest)
  {
    if AllBelong(ws, Space) {
      DropsBraceComma(ws, rest);
    }
    if c != '}' || !CommaCloses(rest) {
      KeepsBraceComma(c, rest);
    }
  }

  // ---------- names ----------

  /** White space, possibly none, a name and a colon. */
  ghost predicate Names(s: string) {
    exists ws, name :: AllBelong(ws, Space) && AllBelong(name, Word) && name != "" && ws + name + ":" <= s
  }

  lemma ExpandName(t: char, ws: string, name: string)
    ensures Expand(Name().template, [[t], ws, name, ":"]) == [t] + ws + "\"" + name + "\":"
  {
    var parts := [[t], ws, name, ":"];
    var template := Name().template;
    assert template[1..] == [Part(1), Text("\""), Part(2), Text("\":")];
    assert template[1..][1..] == [Text("\""), Part(2), Text("\":")];
    assert template[1..][1..][1..] == [Part(2), Text("\":")];
    assert template[1..][1..][1..][1..] == [Text("\":")];
    assert Expand([Text("\":")], parts) == "\":" + Expand([], parts);
    assert Expand(template[1..][1..][1..], parts) == name + "\":";
    assert Expand(template[1..][1..], parts) == "\"" + (name + "\":");
    assert Expand(template[1..], parts) == ws + ("\"" + (name + "\":"));
  }

  lemma QuotesName(t: char, ws: string, name: string, rest: string)
    requires (t == ',' || t == '{') && AllBelong(ws, Space) && AllBelong(name, Word) && name != ""
    ensures ReplaceAll(Name(), [t] + ws + name + ":" + rest)
         == [t] + ws + "\"" + name + "\":" + ReplaceAll(Name(), rest)
  {
    var p := Name().pattern;
    FitsFour(p, [t], ws, name, ":");
    FitsThree(p.next, ws, name, ":");
    FlattenFour([t], ws, name, ":");
    Replaced(Name(), [[t], ws, name, ":"], [t] + ws + name + ":", rest);
    ExpandName(t, ws, name);
  }

  lemma FittingNames(parts: seq<string>, c: char, rest: string)
    requires Fits(Name().pattern, parts) && Flatten(parts) <= [c] + rest
    ensures (c == ',' || c == '{') && Names(rest)
  {
    var p := Name().pattern;
    FourParts(p, parts);
    FitsFour(p, parts[0], parts[1], parts[2], parts[3]);
    FitsThree(p.next, parts[1], parts[2], parts[3]);
    FlattenFour(parts[0], parts[1], parts[2], parts[3]);
    OneOfOne(parts[3], ':');
    assert parts[0][0] in parts[0];
    assert parts[0] + (parts[1] + parts[2] + parts[3]) == Flatten(parts);
    FirstApart(parts[0], parts[1] + parts[2] + parts[3], c, rest);
    assert AllBelong(parts[1], Space) && AllBelong(parts[2], Word) && parts[1] + parts[2] + ":" <= rest;
  }

  lemma KeepsName(c: char, rest: string)
    requires (c != ',' && c != '{') || !Names(rest)
    ensures ReplaceAll(Name(), [c] + rest) == [c] + ReplaceAll(Name(), rest)
  {
    var p := Name().pattern;
    if Match(p, [c] + rest).Some? {
      MatchSound(p, [c] + rest);
      FittingNames(Match(p, [c] + rest).value, c, rest);
    }
    NoMatchHere(Name(), c, rest);
  }

  /** Line 103, on any text: a word and its colon after a comma or an opening brace and white space are
      quoted, and nothing else changes. */
  lemma NameRewrite(t: char, ws: string, name: string, c: char, rest: string)
    ensures (t == ',' || t == '{') && AllBelong(ws, Space) && AllBelong(name, Word) && name != "" ==>
              ReplaceAll(Name(), [t] + ws + name + ":" + rest)
              == [t] + ws + "\"" + name + "\":" + ReplaceAll(Name(), rest)
    ensures (c != ',' && c != '{') || !Names(rest) ==>
              ReplaceAll(Name(), [c] + rest) == [c] + ReplaceAll(Name(), rest)
  {
    if (t == ',' || t == '{') && AllBelong(ws, Space) && AllBelong(name, Word) && name != "" {
      QuotesName(t, ws, name, rest);
    }
    if (c != ',' && c != '{') || !Names(rest) {
      KeepsName(c, rest);
    }
  }

  // ---------- what the output never contains ----------

  lemma {:induction false} ExpandWithout(template: seq<Chunk>, parts: seq<string>, c: char)
    requires forall chunk <- template :: chunk.Text? ==> c !in chunk.t
    requires forall part <- parts :: c !in part
    ensures c !in Expand(template, parts)
  {
    if template != [] {
      ExpandWithout(template[1..], parts, c);
    }
  }

  lemma {:induction false} PartsWithout(parts: seq<string>, c: char)
    requires c !in Flatten(parts)
    ensures forall part <- parts :: c !in part
  {
    if parts != [] {
      PartsWithout(parts[1..], c);
      assert forall d <- parts[0] :: d in Flatten(parts);
    }
  }

  /** A rewrite makes no character that its template and its input do not have. */
  lemma {:induction false} RewriteWithout(rule: Rule, s: string, c: char)
    requires c !in s && forall chunk <- rule.template :: chunk.Text? ==> c !in chunk.t
    ensures c !in ReplaceAll(rule, s)
    decreases |s|
  {
    if s != "" {
      var m := Match(rule.pattern, s);
      if m.None? || Flatten(m.value) == "" {
        RewriteWithout(rule, s[1..], c);
      } else {
        MatchSound(rule.pattern, s);
        MatchedWithout(rule, m.value, s, c);
        RewriteWithout(rule, s[|Flatten(m.value)|..], c);
      }
    }
  }

  lemma MatchedWithout(rule: Rule, parts: seq<string>, s: string, c: char)
    requires c !in s && forall chunk <- rule.template :: chunk.Text? ==> c !in chunk.t
    requires Flatten(parts) <= s
    ensures c !in Expand(rule.template, parts)
  {
    assert forall d <- Flatten(parts) :: d in s;
    PartsWithout(parts, c);
    ExpandWithout(rule.template, parts, c);
  }

  lemma StartWithout(rule: Rule, s: string, c: char)
    requires c !in s && forall chunk <- rule.template :: chunk.Text? ==> c !in chunk.t
    ensures c !in ReplaceAtStart(rule, s)
  {
    var m := Match(rule.pattern, s);
    if m.Some? {
      MatchSound(rule.pattern, s);
      MatchedWithout(rule, m.value, s, c);
    }
  }

  /** strings.ReplaceAll for one character leaves none of it. */
  lemma {:induction false} ReplacedEverywhere(c: char, to: string, s: string)
    requires c !in to
    ensures c !in ReplaceAll(ReplaceChar(c, to), s)
    decreases |s|
  {
    if s != "" {
      var rest := s[1..];
      ReplacedEverywhere(c, to, rest);
      OneCharReplaced(c, to, s[0], rest);
      assert s == [s[0]] + rest;
    }
  }

  lemma OneCharReplaced(c: char, to: string, d: char, rest: string)
    ensures ReplaceAll(ReplaceChar(c, to), [d] + rest)
         == (if d == c then to else [d]) + ReplaceAll(ReplaceChar(c, to), rest)
  {
    var rule, s := ReplaceChar(c, to), [d] + rest;
    assert s[1..] == rest && s[..1] == [d];
    if d == c {
      assert Match(Match0, rest) == Some([]);
      assert [[d]] + [] == [[d]] && Flatten([[d]]) == [d] + Flatten([]);
      assert Match(rule.pattern, s) == Some([[d]] + []);
      MatchHere(rule, [d], rest, [[d]]);
      assert Expand([Text(to)], [[d]]) == to + Expand([], [[d]]);
    } else {
      NoMatchHere(rule, d, rest);
    }
  }

  lemma {:induction false} TrimWithout(s: string, c: char)
    requires c !in s
    ensures c !in TrimLeft(s) && c !in TrimRight(s)
  {
    if s != "" {
      TrimWithout(s[1..], c);
      TrimWithout(s[..|s| - 1], c);
    }
  }

  lemma QuotesGone(s: string)
    ensures '\'' !in Rewritten(s)
  {
    var a := ReplaceAll(Quote(), s);
    var b := ReplaceAll(BraceComma(), ReplaceAll(Comma(), a));
    ReplacedEverywhere('\'', "\"", s);
    RewriteWithout(Comma(), a, '\'');
    RewriteWithout(BraceComma(), ReplaceAll(Comma(), a), '\'');
    RewriteWithout(Name(), b, '\'');
    StartWithout(FirstName(), ReplaceAll(Name(), b), '\'');
  }

  /** Whatever the text, the output has no single quote and no semicolon. */
  lemma OutputIsClean(js: string)
    ensures '\'' !in Converted(js) && ';' !in Converted(js)
  {
    var s := Rewritten(Unwrapped(js));
    QuotesGone(Unwrapped(js));
    RewriteWithout(AnySemicolon(), s, '\'');
    ReplacedEverywhere(';', "", s);
    TrimmedIsClean(ReplaceAll(AnySemicolon(), s));
  }

  lemma TrimmedIsClean(s: string)
    requires '\'' !in s && ';' !in s
    ensures '\'' !in Trim(s) && ';' !in Trim(s)
  {
    TrimWithout(s, '\'');
    TrimWithout(s, ';');
    TrimWithout(TrimLeft(s), '\'');
    TrimWithout(TrimLeft(s), ';');
  }

  // ---------- trimming ----------

  ghost predicate AllSpace(s: string) {
    forall c <- s :: IsUnicodeSpace(c)
  }

  lemma {:induction false} TrimLeftIsExact(s: string) returns (a: string)
    ensures s == a + TrimLeft(s) && AllSpace(a)
    ensures TrimLeft(s) != "" ==> !IsUnicodeSpace(TrimLeft(s)[0])
  {
    a := "";
    if s != "" && IsUnicodeSpace(s[0]) {
      var b := TrimLeftIsExact(s[1..]);
      a := [s[0]] + b;
      assert s == [s[0]] + s[1..];
    }
  }

  lemma {:induction false} TrimRightIsExact(s: string) returns (b: string)
    ensures s == TrimRight(s) + b && AllSpace(b)
    ensures TrimRight(s) != "" ==> !IsUnicodeSpace(TrimRight(s)[|TrimRight(s)| - 1])
  {
    b := "";
    if s != "" && IsUnicodeSpace(s[|s| - 1]) {
      var a := TrimRightIsExact(s[..|s| - 1]);
      b := a + [s[|s| - 1]];
      assert s == s[..|s| - 1] + [s[|s| - 1]];
    }
  }

  /** TrimSpace takes white space from both ends and leaves none there. */
  lemma TrimIsExact(s: string) returns (a: string, b: string)
    ensures s == a + Trim(s) + b && AllSpace(a) && AllSpace(b)
    ensures Trim(s) != "" ==> !IsUnicodeSpace(Trim(s)[0]) && !IsUnicodeSpace(Trim(s)[|Trim(s)| - 1])
  {
    a := TrimLeftIsExact(s);
    b := TrimRightIsExact(TrimLeft(s));
    if Trim(s) != "" {
      assert TrimLeft(s)[0] == Trim(s)[0];
    }
  }

  /** The loop of lines 84 to 86 takes the semicolons at the end, and only them. */
  lemma {:induction false} StripIsExact(s: string) returns (tail: string)
    ensures s == StripSemicolons(s) + tail && forall c <- tail :: c == ';'
    ensures StripSemicolons(s) != "" ==> StripSemicolons(s)[|StripSemicolons(s)| - 1] != ';'
  {
    tail := "";
    if s != "" && s[|s| - 1] == ';' {
      var t := StripIsExact(s[..|s| - 1]);
      tail := t + ";";
      assert s == s[..|s| - 1] + ";";
    }
  }

  // ---------- the rewrites together ----------

  lemma Untouched(k: Stage, s: string)
    requires forall c <- s :: !Starts(k, c)
    ensures ReplaceAll(RuleOf(k), s) == s
  {
    IdleText(k, s, "");
    assert s + "" == s;
  }

  /** A text in square brackets is not trimmed. */
  lemma BracketsStay(s: string)
    requires |s| >= 2 && s[0] == '[' && s[|s| - 1] == ']'
    ensures StripSemicolons(s) == s && Trim(s) == s
  {
  }

  lemma UnwrappedInSteps(js: string, s: string)
    requires ReplaceAll(Header(), js) == js && ReplaceAll(Semicolon(), js) == s
    requires StripSemicolons(s) == s && Trim(s) == s
    ensures Unwrapped(js) == s
  {
  }

  lemma ConvertedInSteps(js: string, s: string, t: string)
    requires Unwrapped(js) == s && Rewritten(s) == t && ReplaceAll(AnySemicolon(), t) == t && Trim(t) == t
    ensures Converted(js) == t
  {
  }

  /** What stands in front stays, and what follows is rewritten. */
  lemma RewritesAfter(k: Stage, a: string, before: string, after: string, rest: string)
    requires forall c <- a :: !Starts(k, c)
    requires ReplaceAll(RuleOf(k), before + rest) == after + ReplaceAll(RuleOf(k), rest) && rest == ""
    ensures ReplaceAll(RuleOf(k), a + before) == a + after
  {
    IdleText(k, a, before);
    assert before + rest == before && after + ReplaceAll(RuleOf(k), rest) == after;
  }

  lemma SemicolonGoes(a: string)
    requires ';' !in a
    ensures ReplaceAll(Semicolon(), a + ";]") == a + "]"
  {
    SemicolonRewrite("", ']', ' ', "");
    assert [';'] + "" + [']'] + "" == ";]" + "" && "" + [']'] == "]";
    RewritesAfter(SemicolonStage, a, ";]", "]", "");
  }

  lemma CommaGoes(a: string, ws: string)
    requires ',' !in a && AllBelong(ws, Space)
    ensures ReplaceAll(Comma(), a + ("," + ws + "]")) == a + (ws + "]")
  {
    CommaRewrite(ws, ']', ' ', "");
    assert [','] + ws + [']'] + "" == ("," + ws + "]") + "" && ws + [']'] == ws + "]";
    RewritesAfter(CommaStage, a, "," + ws + "]", ws + "]", "");
  }

  predicate IsPlainItem(item: string) {
    forall c <- item :: c != 'e' && c != '\'' && c != ',' && c != ';' && c != '{' && c != '}'
  }

  lemma PlainStartsNothing(k: Stage, item: string)
    requires IsPlainItem(item)
    ensures forall c <- item :: !Starts(k, c)
  {
  }

  lemma PlainStays(k: Stage, item: string, tail: string)
    requires IsPlainItem(item) && forall c <- tail :: !Starts(k, c)
    ensures ReplaceAll(RuleOf(k), "[" + item + tail) == "[" + item + tail
  {
    PlainStartsNothing(k, item);
    Untouched(k, "[" + item + tail);
  }

  lemma ItemSemicolonGoes(item: string)
    requires IsPlainItem(item)
    ensures ReplaceAll(Semicolon(), "[" + item + ",;]") == "[" + item + ",]"
  {
    var a := "[" + item + ",";
    SemicolonGoes(a);
    assert a + ";]" == "[" + item + ",;]" && a + "]" == "[" + item + ",]";
  }

  lemma UnwrapsItem(item: string)
    requires IsPlainItem(item)
    ensures Unwrapped("[" + item + ",;]") == "[" + item + ",]"
  {
    PlainStays(HeaderStage, item, ",;]");
    ItemSemicolonGoes(item);
    BracketsStay("[" + item + ",]");
    UnwrappedInSteps("[" + item + ",;]", "[" + item + ",]");
  }

  lemma ItemCommaGoes(item: string)
    requires IsPlainItem(item)
    ensures ReplaceAll(Comma(), "[" + item + ",]") == "[" + item + "]"
  {
    var a := "[" + item;
    CommaGoes(a, "");
    assert a + ("," + "" + "]") == "[" + item + ",]" && a + ("" + "]") == "[" + item + "]";
  }

  lemma RewritesItem(item: string)
    requires IsPlainItem(item)
    ensures Rewritten("[" + item + ",]") == "[" + item + "]"
  {
    var s, t := "[" + item + ",]", "[" + item + "]";
    PlainStays(QuoteStage, item, ",]");
    ItemCommaGoes(item);
    PlainStays(BraceCommaStage, item, "]");
    PlainStays(NameStage, item, "]");
    JsTheorem.RewrittenInSteps(s, s, t, t, t);
  }

  lemma CleansItem(item: string)
    requires IsPlainItem(item)
    ensures ReplaceAll(AnySemicolon(), "[" + item + "]") == "[" + item + "]" == Trim("[" + item + "]")
  {
    PlainStays(CleanupStage, item, "]");
    BracketsStay("[" + item + "]");
  }

  /** A semicolon behind a trailing comma goes first, so that the comma goes too. */
  lemma SemicolonBeforeComma(item: string)
    requires IsPlainItem(item)
    ensures Converted("[" + item + ",;]") == "[" + item + "]"
  {
    UnwrapsItem(item);
    RewritesItem(item);
    CleansItem(item);
    ConvertedInSteps("[" + item + ",;]", "[" + item + ",]", "[" + item + "]");
  }

  lemma ClosesStart(s: string)
    requires Closes(s)
    ensures s != "" && (IsSpace(s[0]) || IsClosing(s[0]))
  {
    var ws, b :| AllBelong(ws, Space) && IsClosing(b) && ws + [b] <= s;
    assert s[0] == (ws + [b])[0];
    assert ws != "" ==> ws[0] in ws;
  }

  lemma NotClosing(rest: string)
    ensures !Closes("," + rest)
  {
    if Closes("," + rest) {
      ClosesStart("," + rest);
    }
  }

  lemma SecondCommaGoes(ws: string)
    requires AllBelong(ws, Space)
    ensures ReplaceAll(Comma(), "," + (ws + "]")) == ws + "]"
  {
    CommaGoes("", ws);
    assert "" + ("," + ws + "]") == "," + (ws + "]") && "" + (ws + "]") == ws + "]";
  }

  lemma CommaBeforeComma(rest: string)
    ensures ReplaceAll(Comma(), ",," + rest) == "," + ReplaceAll(Comma(), "," + rest)
  {
    NotClosing(rest);
    Keeps(Comma(), ',', ',', "," + rest);
    assert [','] + ("," + rest) == ",," + rest;
  }

  lemma FirstCommaStays(ws: string)
    requires AllBelong(ws, Space)
    ensures ReplaceAll(Comma(), "}" + (",," + (ws + "]"))) == "}" + ("," + (ws + "]"))
  {
    SecondCommaGoes(ws);
    CommaBeforeComma(ws + "]");
    IdleText(CommaStage, "}", ",," + (ws + "]"));
  }

  lemma SpacesStartNothing(k: Stage, ws: string)
    requires AllBelong(ws, Space)
    ensures forall c <- ws :: !Starts(k, c)
  {
  }

  /** The stages that leave an object with such commas alone. */
  lemma ObjectStays(k: Stage, commas: string, ws: string)
    requires AllBelong(ws, Space) && forall c <- commas :: c == ','
    requires k == HeaderStage || k == SemicolonStage || k == QuoteStage
    ensures ReplaceAll(RuleOf(k), "[{" + ("}" + (commas + (ws + "]")))) == "[{" + ("}" + (commas + (ws + "]")))
  {
    SpacesStartNothing(k, ws);
    Untouched(k, "[{" + ("}" + (commas + (ws + "]"))));
  }

  lemma NamesStart(s: string)
    requires Names(s)
    ensures s != "" && (IsSpace(s[0]) || IsWord(s[0]))
  {
    var ws, name :| AllBelong(ws, Space) && AllBelong(name, Word) && name != "" && ws + name + ":" <= s;
    assert s[0] == (ws + name + ":")[0];
    assert if ws != "" then ws[0] in ws else name[0] in name;
  }

  lemma NoNameAtBrace(rest: string)
    ensures !Names("}" + rest)
  {
    if Names("}" + rest) {
      NamesStart("}" + rest);
    }
  }

  lemma NameKeepsBrace(rest: string)
    requires forall c <- rest :: !Starts(NameStage, c)
    ensures ReplaceAll(Name(), ['{'] + ("}" + rest)) == ['{'] + ("}" + rest)
  {
    NoNameAtBrace(rest);
    KeepsName('{', "}" + rest);
    Untouched(NameStage, "}" + rest);
  }

  lemma StaysAfter(k: Stage, a: string, s: string)
    requires (forall c <- a :: !Starts(k, c)) && ReplaceAll(RuleOf(k), s) == s
    ensures ReplaceAll(RuleOf(k), a + s) == a + s
  {
    IdleText(k, a, s);
  }

  lemma BracketBrace(t: string)
    ensures "[" + (['{'] + t) == "[{" + t
  {
  }

  lemma BracesStay(t: string)
    requires ReplaceAll(Name(), ['{'] + t) == ['{'] + t
    ensures ReplaceAll(Name(), "[{" + t) == "[{" + t
  {
    StaysAfter(NameStage, "[", ['{'] + t);
    BracketBrace(t);
  }

  lemma ObjectCommas(ws: string)
    requires AllBelong(ws, Space)
    ensures ReplaceAll(Comma(), "[{" + ("}" + (",," + (ws + "]")))) == "[{" + ("}" + ("," + (ws + "]")))
    ensures ReplaceAll(BraceComma(), "[{" + ("}" + ("," + (ws + "]")))) == "[{" + ("}" + (ws + "]"))
  {
    FirstCommaStays(ws);
    IdleText(CommaStage, "[{", "}" + (",," + (ws + "]")));
    LastCommaGoes(ws);
    IdleText(BraceCommaStage, "[{", "}" + ("," + (ws + "]")));
  }

  lemma LastCommaGoes(ws: string)
    requires AllBelong(ws, Space)
    ensures ReplaceAll(BraceComma(), "}" + ("," + (ws + "]"))) == "}" + (ws + "]")
  {
    BraceCommaRewrite(ws, ' ', "");
    assert "}," + ws + "]" + "" == "}" + ("," + (ws + "]"));
    assert "}" + ws + "]" + ReplaceAll(BraceComma(), "") == "}" + (ws + "]");
  }

  /** Of two commas behind an object, one goes at line 95 and the other at line 98. */
  lemma TwoCommas(ws: string)
    requires AllBelong(ws, Space)
    ensures Converted("[{" + ("}" + (",," + (ws + "]")))) == "[{" + ("}" + (ws + "]"))
  {
    var s, t := "[{" + ("}" + (",," + (ws + "]"))), "[{" + ("}" + (ws + "]"));
    TwoCommasUnwrapped(ws, s);
    TwoCommasRewritten(ws, s, t);
    TwoCommasCleaned(ws, t);
    ConvertedInSteps(s, s, t);
  }

  lemma TwoCommasUnwrapped(ws: string, s: string)
    requires AllBelong(ws, Space) && s == "[{" + ("}" + (",," + (ws + "]")))
    ensures Unwrapped(s) == s
  {
    ObjectStays(HeaderStage, ",,", ws);
    ObjectStays(SemicolonStage, ",,", ws);
    BracketsStay(s);
    UnwrappedInSteps(s, s);
  }

  lemma TwoCommasCleaned(ws: string, t: string)
    requires AllBelong(ws, Space) && t == "[{" + ("}" + (ws + "]"))
    ensures ReplaceAll(AnySemicolon(), t) == t == Trim(t)
  {
    SpacesStartNothing(CleanupStage, ws);
    Untouched(CleanupStage, t);
    BracketsStay(t);
  }

  lemma TwoCommasRewritten(ws: string, s: string, t: string)
    requires AllBelong(ws, Space) && s == "[{" + ("}" + (",," + (ws + "]"))) && t == "[{" + ("}" + (ws + "]"))
    ensures Rewritten(s) == t
  {
    ObjectStays(QuoteStage, ",,", ws);
    ObjectCommas(ws);
    SpacesStartNothing(NameStage, ws);
    NameKeepsBrace(ws + "]");
    BracesStay("}" + (ws + "]"));
    JsTheorem.RewrittenInSteps(s, s, "[{" + ("}" + ("," + (ws + "]"))), t, t);
  }
}
