/** The regular expressions that rpcscan/jsfilescan.go uses: a row of character classes, each taken
    once, any number of times (`*`) or at least once (`+`), matched leftmost and greedily. */
module Regexp {
  import opened Wrappers

  datatype Class = Is(c: char) | OneOf(cs: string) | Space | Word

  datatype Quantifier = Once | Star | Plus

  datatype Pattern = Match0 | Then(cls: Class, q: Quantifier, next: Pattern)

  predicate IsSpace(c: char) {
    c == ' ' || c == '\t' || c == '\n' || c == '\r' || c == '\U{0C}'
  }

  predicate IsWord(c: char) {
    '0' <= c <= '9' || 'A' <= c <= 'Z' || 'a' <= c <= 'z' || c == '_'
  }

  predicate Belongs(c: char, cls: Class) {
    match cls
    case Is(d) => c == d
    case OneOf(cs) => c in cs
    case Space => IsSpace(c)
    case Word => IsWord(c)
  }

  predicate AllBelong(s: string, cls: Class) {
    forall c <- s :: Belongs(c, cls)
  }

  /** Length of the longest prefix within a class. */
  function Run(cls: Class, s: string): (n: nat)
    ensures n <= |s|
  {
    if s != "" && Belongs(s[0], cls) then 1 + Run(cls, s[1..]) else 0
  }

  /** How much of `s` the first class of a pattern takes; None when it cannot match. */
  function Take(cls: Class, q: Quantifier, s: string): (n: Option<nat>)
    ensures n.Some? ==> n.value <= |s|
  {
    match q
    case Once => if s != "" && Belongs(s[0], cls) then Some(1) else None
    case Star => Some(Run(cls, s))
    case Plus => if Run(cls, s) > 0 then Some(Run(cls, s)) else None
  }

  /** A match at the start of `s`: what each class of the pattern took. */
  function Match(p: Pattern, s: string): (found: Option<seq<string>>)
    ensures found.Some? ==> |Flatten(found.value)| <= |s|
  {
    match p
    case Match0 => Some([])
    case Then(cls, q, next) =>
      match Take(cls, q, s)
      case None => None
      case Some(n) =>
        match Match(next, s[n..])
        case None => None
        case Some(parts) =>
          assert ([s[..n]] + parts)[1..] == parts;
          Some([s[..n]] + parts)
  }

  function Flatten(parts: seq<string>): string {
    if parts == [] then "" else parts[0] + Flatten(parts[1..])
  }

  // ---------- the greedy match is the match ----------

  predicate FitsPiece(cls: Class, q: Quantifier, part: string) {
    AllBelong(part, cls) && (q == Once ==> |part| == 1) && (q == Plus ==> |part| > 0)
  }

  /** The language of a pattern, without any strategy: `parts` fit the classes one by one. */
  predicate Fits(p: Pattern, parts: seq<string>) {
    match p
    case Match0 => parts == []
    case Then(cls, q, next) => parts != [] && FitsPiece(cls, q, parts[0]) && Fits(next, parts[1..])
  }

  /** Nothing that a repeated class can take could also start what follows it. */
  ghost predicate Deterministic(p: Pattern) {
    match p
    case Match0 => true
    case Then(cls, q, next) =>
      && Deterministic(next)
      && (q != Once && next.Then? ==> next.q != Star && forall c :: !(Belongs(c, cls) && Belongs(c, next.cls)))
  }

  predicate EndsOnce(p: Pattern) {
    p.Then? && if p.next.Match0? then p.q == Once else EndsOnce(p.next)
  }

  lemma {:induction false} RunIsLongest(cls: Class, a: string, rest: string)
    requires AllBelong(a, cls)
    ensures Run(cls, a + rest) == |a| + Run(cls, rest)
    decreases |a|
  {
    if a == "" {
      assert a + rest == rest;
    } else {
      assert (a + rest)[0] == a[0] && (a + rest)[1..] == a[1..] + rest;
      RunIsLongest(cls, a[1..], rest);
    }
  }

  lemma {:induction false} RunBelongs(cls: Class, s: string)
    ensures AllBelong(s[..Run(cls, s)], cls)
  {
    if s != "" && Belongs(s[0], cls) {
      RunBelongs(cls, s[1..]);
      assert s[..Run(cls, s)] == [s[0]] + s[1..][..Run(cls, s[1..])];
    }
  }

  /** A match found is in the language and is a prefix of the text. */
  lemma {:induction false} MatchSound(p: Pattern, s: string)
    requires Match(p, s).Some?
    ensures Fits(p, Match(p, s).value) && Flatten(Match(p, s).value) <= s
  {
    if p.Then? {
      var n := Take(p.cls, p.q, s).value;
      MatchSound(p.next, s[n..]);
      RunBelongs(p.cls, s);
      var parts := Match(p.next, s[n..]).value;
      assert ([s[..n]] + parts)[1..] == parts;
      PrefixAfter(s, n, Flatten(parts));
    }
  }

  lemma PrefixAfter(s: string, n: nat, t: string)
    requires n <= |s| && t <= s[n..]
    ensures s[..n] + t <= s
  {
  }

  /** Before another class, a greedy class takes exactly its part. */
  lemma TakesItsPart(p: Pattern, a: string, more: seq<string>, rest: string)
    requires p.Then? && Deterministic(p) && (p.next.Then? || p.q == Once)
    requires FitsPiece(p.cls, p.q, a) && Fits(p.next, more) && Flatten(more) <= rest
    ensures Take(p.cls, p.q, a + rest) == Some(|a|)
  {
    if p.q == Once {
      assert (a + rest)[0] == a[0];
    } else {
      RunIsLongest(p.cls, a, rest);
      assert Flatten(more) == more[0] + Flatten(more[1..]);
      assert rest[0] == more[0][0] && more[0][0] in more[0];
    }
  }

  /** If any prefix of the text is in the language, a match is found, and none is longer; unless the
      pattern ends in a repetition, it is the only one. */
  lemma {:induction false} MatchComplete(p: Pattern, s: string, parts: seq<string>)
    requires Deterministic(p) && Fits(p, parts) && Flatten(parts) <= s
    ensures Match(p, s).Some?
    ensures |Flatten(parts)| <= |Flatten(Match(p, s).value)|
    ensures EndsOnce(p) ==> Match(p, s).value == parts
  {
    if p.Then? {
      var a, more := parts[0], parts[1..];
      var rest := s[|a|..];
      SplitPrefix(s, a, Flatten(more));
      if p.next.Then? || p.q == Once {
        TakesItsPart(p, a, more, rest);
        MatchComplete(p.next, rest, more);
        MatchOneMore(p, a, rest);
        assert parts == [a] + more;
      } else {
        RunIsLongest(p.cls, a, rest);
        LastPiece(p, s);
        assert Flatten(parts) == a + Flatten([]);
      }
    }
  }

  lemma SplitPrefix(s: string, a: string, b: string)
    requires a + b <= s
    ensures a <= s && s == a + s[|a|..] && b <= s[|a|..]
  {
    assert (a + b)[..|a|] == a && (a + b)[|a|..] == b;
  }

  /** A deterministic pattern matches exactly where some prefix is in its language, and takes a longest. */
  lemma DeterministicMatchIff(p: Pattern, s: string)
    requires Deterministic(p)
    ensures Match(p, s).Some? <==> exists parts :: Fits(p, parts) && Flatten(parts) <= s
    ensures Match(p, s).Some? ==>
              && Fits(p, Match(p, s).value) && Flatten(Match(p, s).value) <= s
              && forall parts :: Fits(p, parts) && Flatten(parts) <= s ==>
                                   |Flatten(parts)| <= |Flatten(Match(p, s).value)|
  {
    if Match(p, s).Some? {
      MatchSound(p, s);
    }
    forall parts | Fits(p, parts) && Flatten(parts) <= s
      ensures Match(p, s).Some? && |Flatten(parts)| <= |Flatten(Match(p, s).value)|
    {
      MatchComplete(p, s, parts);
    }
  }

  lemma MatchOneMore(p: Pattern, a: string, rest: string)
    requires p.Then? && Take(p.cls, p.q, a + rest) == Some(|a|) && Match(p.next, rest).Some?
    ensures var parts := [a] + Match(p.next, rest).value;
            Match(p, a + rest) == Some(parts) && Flatten(parts) == a + Flatten(Match(p.next, rest).value)
  {
  }

  lemma LastPiece(p: Pattern, s: string)
    requires p.Then? && p.next.Match0? && Take(p.cls, p.q, s).Some?
    ensures Match(p, s).Some? && |Flatten(Match(p, s).value)| == Take(p.cls, p.q, s).value
  {
  }

  // ---------- replacing ----------

  /** Part of a replacement text: literal text, or what the i-th class took. */
  datatype Chunk = Text(t: string) | Part(i: nat)

  datatype Rule = Rule(pattern: Pattern, template: seq<Chunk>)

  function Expand(template: seq<Chunk>, parts: seq<string>): string {
    if template == [] then "" else
    (match template[0]
     case Text(t) => t
     case Part(i) => if i < |parts| then parts[i] else "")
    + Expand(template[1..], parts)
  }

  /** ReplaceAllString: leftmost matches, one after the other; none of the patterns matches "". */
  function ReplaceAll(rule: Rule, s: string): string
    decreases |s|
  {
    if s == "" then "" else
    var m := Match(rule.pattern, s);
    if m.None? || Flatten(m.value) == "" then [s[0]] + ReplaceAll(rule, s[1..])
    else Expand(rule.template, m.value) + ReplaceAll(rule, s[|Flatten(m.value)|..])
  }

  /** ReplaceAllString for a pattern anchored at the start of the text. */
  function ReplaceAtStart(rule: Rule, s: string): string {
    var m := Match(rule.pattern, s);
    if m.None? then s
    else Expand(rule.template, m.value) + s[|Flatten(m.value)|..]
  }

  lemma NoMatchHere(rule: Rule, c: char, rest: string)
    requires Match(rule.pattern, [c] + rest).None?
    ensures ReplaceAll(rule, [c] + rest) == [c] + ReplaceAll(rule, rest)
  {
  }

  lemma MatchHere(rule: Rule, text: string, rest: string, parts: seq<string>)
    requires Match(rule.pattern, text + rest) == Some(parts) && Flatten(parts) == text && text != ""
    ensures ReplaceAll(rule, text + rest) == Expand(rule.template, parts) + ReplaceAll(rule, rest)
  {
  }

  /** Text without the first character of any match stays as it is. */
  lemma {:induction false} NoTrigger(rule: Rule, text: string, rest: string)
    requires rule.pattern.Then? && rule.pattern.q == Once
    requires forall c <- text :: !Belongs(c, rule.pattern.cls)
    ensures ReplaceAll(rule, text + rest) == text + ReplaceAll(rule, rest)
    decreases |text|
  {
    if text == "" {
      assert text + rest == rest;
    } else {
      var tail := text[1..];
      assert text + rest == [text[0]] + (tail + rest);
      NoMatchHere(rule, text[0], tail + rest);
      NoTrigger(rule, tail, rest);
      assert [text[0]] + (tail + ReplaceAll(rule, rest)) == text + ReplaceAll(rule, rest);
    }
  }

  /** A character that no class of the pattern contains stops every match. */
  predicate Blocks(c: char, p: Pattern) {
    p.Match0? || (!Belongs(c, p.cls) && Blocks(c, p.next))
  }

  lemma {:induction false} RunStops(cls: Class, a: string, c: char, rest: string)
    requires !Belongs(c, cls)
    ensures Run(cls, a + [c] + rest) == Run(cls, a)
    decreases |a|
  {
    if a == "" {
      assert (a + [c] + rest)[0] == c;
    } else {
      assert (a + [c] + rest)[0] == a[0] && (a + [c] + rest)[1..] == a[1..] + [c] + rest;
      RunStops(cls, a[1..], c, rest);
    }
  }

  lemma BlockedTake(cls: Class, q: Quantifier, a: string, c: char, rest: string)
    requires !Belongs(c, cls)
    ensures Take(cls, q, a + [c] + rest) == Take(cls, q, a)
  {
    RunStops(cls, a, c, rest);
    assert (a + [c] + rest)[0] == if a == "" then c else a[0];
  }

  lemma {:induction false} BlockedMatch(p: Pattern, a: string, c: char, rest: string)
    requires Blocks(c, p)
    ensures Match(p, a + [c] + rest) == Match(p, a)
  {
    if p.Then? {
      BlockedTake(p.cls, p.q, a, c, rest);
      if Take(p.cls, p.q, a).Some? {
        var n := Take(p.cls, p.q, a).value;
        assert (a + [c] + rest)[n..] == a[n..] + [c] + rest;
        assert (a + [c] + rest)[..n] == a[..n];
        BlockedMatch(p.next, a[n..], c, rest);
      }
    }
  }

  ghost predicate NowhereIn(p: Pattern, a: string) {
    forall i :: 0 <= i <= |a| ==> Match(p, a[i..]).None?
  }

  lemma NowhereInTail(p: Pattern, a: string)
    requires NowhereIn(p, a)
    ensures Match(p, a).None?
    ensures a != "" ==> NowhereIn(p, a[1..])
  {
    assert a[0..] == a;
    if a != "" {
      forall i | 0 <= i <= |a[1..]| ensures Match(p, a[1..][i..]).None? {
        assert a[1..][i..] == a[i + 1..];
      }
    }
  }

  /** Text that contains no match and is followed by a blocking character stays as it is. */
  lemma {:induction false} NoMatchBefore(rule: Rule, a: string, c: char, rest: string)
    requires Blocks(c, rule.pattern) && NowhereIn(rule.pattern, a)
    ensures ReplaceAll(rule, a + ([c] + rest)) == a + ([c] + ReplaceAll(rule, rest))
    decreases |a|
  {
    BlockedMatch(rule.pattern, a, c, rest);
    NowhereInTail(rule.pattern, a);
    assert a + ([c] + rest) == a + [c] + rest;
    if a == "" {
      assert a + [c] + rest == [c] + rest;
      NoMatchHere(rule, c, rest);
    } else {
      var tail := a[1..];
      assert a + [c] + rest == [a[0]] + (tail + ([c] + rest));
      NoMatchHere(rule, a[0], tail + ([c] + rest));
      NoMatchBefore(rule, tail, c, rest);
    }
  }

  /** A text without any match stays as it is. */
  lemma {:induction false} NoMatchAtAll(rule: Rule, s: string)
    requires NowhereIn(rule.pattern, s)
    ensures ReplaceAll(rule, s) == s
    decreases |s|
  {
    NowhereInTail(rule.pattern, s);
    if s != "" {
      NoMatchAtAll(rule, s[1..]);
    }
  }

  /** The classes of a pattern that every match contains once. */
  predicate Needs(p: Pattern, cls: Class) {
    p.Then? && ((p.q == Once && p.cls == cls) || Needs(p.next, cls))
  }

  /** Where a class that every match needs does not occur, there is no match. */
  lemma {:induction false} NeededClass(p: Pattern, cls: Class, s: string)
    requires Needs(p, cls) && forall c <- s :: !Belongs(c, cls)
    ensures Match(p, s).None?
  {
    if !(p.q == Once && p.cls == cls) && Take(p.cls, p.q, s).Some? {
      NeededClass(p.next, cls, s[Take(p.cls, p.q, s).value..]);
    }
  }

  lemma NeededNowhere(p: Pattern, cls: Class, s: string)
    requires Needs(p, cls) && forall c <- s :: !Belongs(c, cls)
    ensures NowhereIn(p, s)
  {
  }

  // ---------- matching a known text ----------

  lemma ExactTake(p: Pattern, a: string, more: seq<string>, rest: string)
    requires p.Then? && Deterministic(p) && FitsPiece(p.cls, p.q, a) && Fits(p.next, more)
    requires EndsOnce(p) || rest == "" || !Belongs(rest[0], LastClass(p))
    ensures Take(p.cls, p.q, a + (Flatten(more) + rest)) == Some(|a|)
  {
    if p.next.Then? || p.q == Once {
      TakesItsPart(p, a, more, Flatten(more) + rest);
    } else {
      RunIsLongest(p.cls, a, rest);
      assert Flatten(more) + rest == rest;
    }
  }

  /** A text that fits the pattern part by part is matched part by part, if what follows cannot
      lengthen the last part. */
  lemma {:induction false} MatchExact(p: Pattern, parts: seq<string>, rest: string)
    requires Deterministic(p) && Fits(p, parts)
    requires p.Match0? || EndsOnce(p) || rest == "" || !Belongs(rest[0], LastClass(p))
    ensures Match(p, Flatten(parts) + rest) == Some(parts)
  {
    if p.Then? {
      var a, more := parts[0], parts[1..];
      ExactTake(p, a, more, rest);
      MatchExact(p.next, more, rest);
      MatchOneMore(p, a, Flatten(more) + rest);
      assert Flatten(parts) + rest == a + (Flatten(more) + rest);
      assert parts == [a] + more;
    }
  }

  /** The class of the last piece. */
  function LastClass(p: Pattern): Class {
    if p.Match0? then Is(' ') else if p.next.Match0? then p.cls else LastClass(p.next)
  }

  /** The pattern that reads a fixed text. */
  function Literal(text: string, next: Pattern): Pattern {
    if text == "" then next else Then(Is(text[0]), Once, Literal(text[1..], next))
  }

  function Chars(text: string): seq<string> {
    if text == "" then [] else [[text[0]]] + Chars(text[1..])
  }

  lemma {:induction false} LiteralShape(text: string, next: Pattern)
    requires Deterministic(next) && next.Then?
    ensures var p := Literal(text, next);
            p.Then? && Deterministic(p) && LastClass(p) == LastClass(next) && EndsOnce(p) == EndsOnce(next)
  {
    if text != "" {
      LiteralShape(text[1..], next);
    }
  }

  lemma OneCharFits(c: char, p: Pattern, parts: seq<string>)
    requires Fits(p, parts)
    ensures Fits(Then(Is(c), Once, p), [[c]] + parts) && Flatten([[c]] + parts) == [c] + Flatten(parts)
  {
  }

  lemma {:induction false} LiteralFits(text: string, next: Pattern, parts: seq<string>)
    requires Fits(next, parts)
    ensures Fits(Literal(text, next), Chars(text) + parts)
    ensures Flatten(Chars(text) + parts) == text + Flatten(parts)
  {
    if text == "" {
      assert Chars(text) + parts == parts;
    } else {
      var tail := Chars(text[1..]) + parts;
      LiteralFits(text[1..], next, parts);
      OneCharFits(text[0], Literal(text[1..], next), tail);
      assert Chars(text) + parts == [[text[0]]] + tail;
      assert [text[0]] + (text[1..] + Flatten(parts)) == text + Flatten(parts);
    }
  }
}
