/** convertJSToJSON of rpcscan/jsfilescan.go: a chain of regular-expression rewrites that turns an
    exported object literal into JSON text. */
module JsToJson {
  import opened Regexp

  // ---------- the rewrites, with the line of each ----------

  function ClosingAfterSpace(): Pattern {
    Then(Space, Star, Then(OneOf("}]"), Once, Match0))
  }

  function AfterHeader(): Pattern {
    Then(Space, Star, Then(Is('='), Once, Then(Space, Star, Match0)))
  }

  function HeaderPattern(): Pattern {
    Literal("export", Then(Space, Plus, Literal("const", Then(Space, Plus, Literal("data", AfterHeader())))))
  }

  /** 77  the export header is dropped */
  function Header(): Rule {
    Rule(HeaderPattern(), [])
  }

  /** 81  a semicolon before a closing bracket is dropped */
  function Semicolon(): Rule {
    Rule(Then(Is(';'), Once, ClosingAfterSpace()), [Part(1), Part(2)])
  }

  /** 95  a comma before a closing bracket is dropped */
  function Comma(): Rule {
    Rule(Then(Is(','), Once, ClosingAfterSpace()), [Part(1), Part(2)])
  }

  /** 98  a comma between a closing brace and a closing square bracket is dropped */
  function BraceComma(): Rule {
    Rule(Then(Is('}'), Once, Then(Is(','), Once, Then(Space, Star, Then(Is(']'), Once, Match0)))),
         [Text("}"), Part(2), Part(3)])
  }

  function WordColon(): Pattern {
    Then(Word, Plus, Then(Is(':'), Once, Match0))
  }

  /** 103  an unquoted name after a comma or an opening brace is quoted */
  function Name(): Rule {
    Rule(Then(OneOf(",{"), Once, Then(Space, Star, WordColon())), [Part(0), Part(1), Text("\""), Part(2), Text("\":")])
  }

  /** 106  so is the first name of the text */
  function FirstName(): Rule {
    Rule(Then(Space, Star, Then(Is('{'), Once, Then(Space, Star, WordColon()))), [Text("{\""), Part(3), Text("\":")])
  }

  /** strings.ReplaceAll for a single character. */
  function ReplaceChar(c: char, to: string): Rule {
    Rule(Then(Is(c), Once, Match0), [Text(to)])
  }

  /** 91  single quotes become double quotes */
  function Quote(): Rule {
    ReplaceChar('\'', "\"")
  }

  /** 109  remaining semicolons are dropped */
  function AnySemicolon(): Rule {
    ReplaceChar(';', "")
  }

  // ---------- the matcher is right for every rule ----------

  ghost predicate IsRule(rule: Rule) {
    rule == Header() || rule == Semicolon() || rule == Quote() || rule == Comma() || rule == BraceComma()
    || rule == Name() || rule == FirstName() || rule == AnySemicolon()
  }

  lemma HeaderIsDeterministic()
    ensures Deterministic(HeaderPattern()) && LastClass(HeaderPattern()) == Space && HeaderPattern().Then?
  {
    var d := Literal("data", AfterHeader());
    assert Deterministic(Then(Is('='), Once, Then(Space, Star, Match0)));
    assert LastClass(Then(Is('='), Once, Then(Space, Star, Match0))) == Space;
    LiteralShape("data", AfterHeader());
    FirstOfLiteral("data", AfterHeader());
    LiteralShape("const", Then(Space, Plus, d));
    FirstOfLiteral("const", Then(Space, Plus, d));
    LiteralShape("export", Then(Space, Plus, Literal("const", Then(Space, Plus, d))));
  }

  lemma FirstOfLiteral(text: string, next: Pattern)
    requires text != ""
    ensures var p := Literal(text, next); p.Then? && p.q == Once && p.cls == Is(text[0])
  {
  }

  lemma RulesAreDeterministic(rule: Rule)
    requires IsRule(rule)
    ensures Deterministic(rule.pattern)
  {
    HeaderIsDeterministic();
  }

  /** For every rule and text: the greedy matcher finds a match exactly if some prefix of the text is in
      the language of the rule's pattern; what it finds is such a prefix, and none is longer. */
  lemma RuleMatchesIff(rule: Rule, s: string)
    requires IsRule(rule)
    ensures Match(rule.pattern, s).Some? <==> exists parts :: Fits(rule.pattern, parts) && Flatten(parts) <= s
    ensures Match(rule.pattern, s).Some? ==>
              var found := Match(rule.pattern, s).value;
              && Fits(rule.pattern, found) && Flatten(found) <= s
              && forall parts :: Fits(rule.pattern, parts) && Flatten(parts) <= s ==>
                                   |Flatten(parts)| <= |Flatten(found)|
  {
    RulesAreDeterministic(rule);
    DeterministicMatchIff(rule.pattern, s);
  }

  // ---------- the conversion ----------

  /** The text without the semicolons at its end. */
  function StripSemicolons(s: string): string {
    if s != "" && s[|s| - 1] == ';' then StripSemicolons(s[..|s| - 1]) else s
  }

  /** unicode.IsSpace */
  predicate IsUnicodeSpace(c: char) {
    '\t' <= c <= '\r' || c == ' ' || c == '\U{85}' || c == '\U{A0}' || c == '\U{1680}'
    || '\U{2000}' <= c <= '\U{200A}' || c == '\U{2028}' || c == '\U{2029}' || c == '\U{202F}'
    || c == '\U{205F}' || c == '\U{3000}'
  }

  function TrimLeft(s: string): string {
    if s != "" && IsUnicodeSpace(s[0]) then TrimLeft(s[1..]) else s
  }

  function TrimRight(s: string): string {
    if s != "" && IsUnicodeSpace(s[|s| - 1]) then TrimRight(s[..|s| - 1]) else s
  }

  /** strings.TrimSpace */
  function Trim(s: string): string {
    TrimRight(TrimLeft(s))
  }

  /** Lines 76 to 87: header and outer semicolons go. */
  function Unwrapped(js: string): string {
    Trim(StripSemicolons(ReplaceAll(Semicolon(), ReplaceAll(Header(), js))))
  }

  /** Lines 91 to 106: quotes, commas and names are rewritten. */
  function Rewritten(s: string): string {
    ReplaceAtStart(FirstName(),
                   ReplaceAll(Name(), ReplaceAll(BraceComma(), ReplaceAll(Comma(), ReplaceAll(Quote(), s)))))
  }

  function Converted(js: string): string {
    Trim(ReplaceAll(AnySemicolon(), Rewritten(Unwrapped(js))))
  }

  method ConvertJSToJSON(jsContent: string) returns (jsonContent: string)
    ensures jsonContent == Converted(jsContent)
  {
    jsonContent := ReplaceAll(Header(), jsContent);
    jsonContent := ReplaceAll(Semicolon(), jsonContent);
    ghost var wrapped := jsonContent;
    while jsonContent != "" && jsonContent[|jsonContent| - 1] == ';'
      invariant StripSemicolons(jsonContent) == StripSemicolons(wrapped)
      decreases |jsonContent|
    {
      jsonContent := jsonContent[..|jsonContent| - 1];
    }
    jsonContent := Trim(jsonContent);
    jsonContent := ReplaceAll(Quote(), jsonContent);
    jsonContent := ReplaceAll(Comma(), jsonContent);
    jsonContent := ReplaceAll(BraceComma(), jsonContent);
    jsonContent := ReplaceAll(Name(), jsonContent);
    jsonContent := ReplaceAtStart(FirstName(), jsonContent);
    jsonContent := ReplaceAll(AnySemicolon(), jsonContent);
    jsonContent := Trim(jsonContent);
  }
}
