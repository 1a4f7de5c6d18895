/** The rule for the first name of the text (line 106 of rpcscan/jsfilescan.go) never applies: the
    rule before it has already quoted every name it could find. */
module JsFirstName {
  import opened Regexp
  import opened JsToJson
  import opened JsFragment

  predicate IsTrigger(c: char) {
    c == ',' || c == '{'
  }

  predicate NoTriggers(s: string) {
    forall c <- s :: !IsTrigger(c)
  }

  /** Where the name rule matches, its output starts with the trigger, white space and a quote. */
  lemma NameOutput(s: string) returns (ws: string, more: string)
    requires Match(Name().pattern, s).Some?
    ensures s != "" && IsTrigger(s[0]) && AllBelong(ws, Space)
    ensures ReplaceAll(Name(), s) == [s[0]] + (ws + (['"'] + more))
  {
    var parts := Match(Name().pattern, s).value;
    MatchSound(Name().pattern, s);
    FourParts(parts);
    ExpandName(parts);
    var rest := ReplaceAll(Name(), s[|Flatten(parts)|..]);
    assert s[0] == Flatten(parts)[0] == parts[0][0];
    ws, more := parts[1], (parts[2] + "\":") + rest;
    Rejoin(parts[0], ws, "\"", parts[2] + "\":", rest);
  }

  lemma Peel(p: Pattern, parts: seq<string>)
    requires p.Then? && Fits(p, parts)
    ensures parts != [] && FitsPiece(p.cls, p.q, parts[0]) && Fits(p.next, parts[1..])
    ensures Flatten(parts) == parts[0] + Flatten(parts[1..])
  {
  }

  lemma FourParts(parts: seq<string>)
    requires Fits(Name().pattern, parts)
    ensures |parts| == 4 && |parts[0]| == 1 && IsTrigger(parts[0][0]) && AllBelong(parts[1], Space)
    ensures parts[0] <= Flatten(parts) && Flatten(parts) != ""
  {
    var p := Name().pattern;
    Peel(p, parts);
    Peel(p.next, parts[1..]);
    Peel(p.next.next, parts[1..][1..]);
    Peel(p.next.next.next, parts[1..][1..][1..]);
    assert Belongs(parts[0][0], p.cls);
  }

  /** What the output starts with and holds no trigger was copied from the input. */
  lemma {:induction false} Copied(s: string, p: string)
    requires p <= ReplaceAll(Name(), s) && NoTriggers(p)
    ensures p <= s && ReplaceAll(Name(), s)[|p|..] == ReplaceAll(Name(), s[|p|..])
    decreases |p|
  {
    if p == "" {
      assert s[0..] == s;
    } else {
      CopiedChar(s, p[0], p[1..]);
      Copied(s[1..], p[1..]);
      assert s[1..][|p[1..]|..] == s[|p|..];
      assert p == [p[0]] + p[1..];
    }
  }

  lemma CopiedChar(s: string, c: char, more: string)
    requires [c] + more <= ReplaceAll(Name(), s) && !IsTrigger(c)
    ensures s != "" && s[0] == c && more <= ReplaceAll(Name(), s[1..])
    ensures ReplaceAll(Name(), s) == [c] + ReplaceAll(Name(), s[1..])
  {
    if Match(Name().pattern, s).Some? {
      var _, _ := NameOutput(s);
    } else {
      assert ([c] + more)[1..] == more;
    }
  }

  /** White space is where it ends. */
  lemma SameSpaces(ws: string, a: string, ws': string, b: string)
    requires AllBelong(ws, Space) && AllBelong(ws', Space) && a != "" && b != "" && !IsSpace(a[0]) && !IsSpace(b[0])
    requires ws + a <= ws' + b
    ensures |ws| == |ws'| && a[0] == b[0]
  {
    var tail := (ws' + b)[|ws + a|..];
    RunIsLongest(Space, ws, a + tail);
    RunIsLongest(Space, ws', b);
    assert ws + (a + tail) == ws' + b;
    assert (ws + a)[|ws|] == a[0] && (ws' + b)[|ws'|] == b[0];
  }

  /** After a brace, the name rule finds a name and its colon. */
  lemma NameIsFound(s: string, ws: string, name: string)
    requires AllBelong(ws, Space) && AllBelong(name, Word) && name != "" && ws + (name + ":") <= s
    ensures Match(Name().pattern, ['{'] + s).Some?
  {
    var rest := s[|ws + (name + ":")|..];
    assert s == ws + (name + ":") + rest == ws + (name + ([':'] + rest));
    NameMatch('{', ws, name, rest);
  }

  /** Where a name was found, its output does not start as a name would. */
  lemma NameIsQuoted(s: string, ws: string, word: string)
    requires Match(Name().pattern, s).Some?
    requires AllBelong(ws, Space) && word != "" && IsWord(word[0])
    ensures ReplaceAll(Name(), s) != "" && !(ws + word <= ReplaceAll(Name(), s)[1..])
  {
    var ws', more := NameOutput(s);
    var output := ws' + (['"'] + more);
    assert ReplaceAll(Name(), s)[1..] == output;
    if ws + word <= output {
      SameSpaces(ws, word, ws', ['"'] + more);
    }
  }

  /** The output never starts with a brace, white space, a name and a colon. */
  lemma NoFirstName(s: string, ws: string, name: string)
    requires AllBelong(ws, Space) && AllBelong(name, Word) && name != ""
    ensures !(['{'] + (ws + (name + ":")) <= ReplaceAll(Name(), s))
  {
    var t, inside := ReplaceAll(Name(), s), ws + (name + ":");
    if ['{'] + inside <= t {
      assert inside == (['{'] + inside)[1..] <= t[1..];
      if Match(Name().pattern, s).Some? {
        assert name[0] in name;
        NameIsQuoted(s, ws, name + ":");
      } else {
        assert s == ['{'] + s[1..];
        NoMatchHere(Name(), '{', s[1..]);
        assert NoTriggers(inside);
        Copied(s[1..], inside);
        NameIsFound(s[1..], ws, name);
      }
    }
  }

  /** Whatever the text, the rule for the first name changes nothing once the rule for names has been
      applied. */
  lemma FirstNameNeverApplies(s: string)
    ensures ReplaceAtStart(FirstName(), ReplaceAll(Name(), s)) == ReplaceAll(Name(), s)
  {
    var t := ReplaceAll(Name(), s);
    var m := Match(FirstName().pattern, t);
    if m.Some? {
      MatchSound(FirstName().pattern, t);
      var parts := m.value;
      FiveParts(parts);
      var lead, more := parts[0], ['{'] + (parts[2] + (parts[3] + ":"));
      assert lead <= lead + more <= t;
      Copied(s, lead);
      assert more == (lead + more)[|lead|..] <= t[|lead|..];
      NoFirstName(s[|lead|..], parts[2], parts[3]);
    }
  }

  lemma FiveParts(parts: seq<string>)
    requires Fits(FirstName().pattern, parts)
    ensures |parts| == 5 && AllBelong(parts[0], Space) && AllBelong(parts[2], Space) && AllBelong(parts[3], Word)
    ensures parts[3] != "" && Flatten(parts) == parts[0] + (['{'] + (parts[2] + (parts[3] + ":")))
  {
    var p := FirstName().pattern;
    Peel(p, parts);
    Peel(p.next, parts[1..]);
    Peel(p.next.next, parts[1..][1..]);
    Peel(p.next.next.next, parts[1..][1..][1..]);
    Peel(p.next.next.next.next, parts[1..][1..][1..][1..]);
    assert parts[1] == [parts[1][0]] && parts[4] == [parts[4][0]];
    assert Belongs(parts[1][0], Is('{')) && Belongs(parts[4][0], Is(':'));
    assert Flatten(parts[1..][1..][1..][1..]) == parts[4] + Flatten([]) == ":";
  }
}
