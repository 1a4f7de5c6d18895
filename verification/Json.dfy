/** JSON texts without escapes in strings, read as sections 2 to 7 of RFC 8259 prescribe. */
module Json {
  import opened Wrappers
  import Decimal

  /** A scalar is a number or one of the three literal names and is kept as its text. Items of an
      object have a name, items of an array have none. */
  datatype Value = Scalar(text: string) | Str(content: string) | Array(items: Items) | Object(items: Items)

  datatype Items = End | Item(name: Option<string>, value: Value, tail: Items)

  predicate IsWs(c: char) {
    c == ' ' || c == '\t' || c == '\n' || c == '\r'
  }

  predicate AllWs(s: string) {
    forall c <- s :: IsWs(c)
  }

  function SkipWs(s: string): (rest: string)
    ensures |rest| <= |s|
  {
    if s != "" && IsWs(s[0]) then SkipWs(s[1..]) else s
  }

  // ---------- scalars (sections 3 and 6) ----------

  function DigitRun(s: string): (n: nat)
    ensures n <= |s|
  {
    if s != "" && Decimal.IsDigit(s[0]) then 1 + DigitRun(s[1..]) else 0
  }

  predicate IsExponent(s: string) {
    s == "" ||
    ((s[0] == 'e' || s[0] == 'E') &&
     var t := if |s| > 1 && (s[1] == '+' || s[1] == '-') then s[2..] else s[1..];
     t != "" && DigitRun(t) == |t|)
  }

  predicate IsFraction(s: string) {
    if s != "" && s[0] == '.' then DigitRun(s[1..]) > 0 && IsExponent(s[1..][DigitRun(s[1..])..])
    else IsExponent(s)
  }

  predicate IsUnsigned(s: string) {
    DigitRun(s) > 0 && (DigitRun(s) > 1 ==> s[0] != '0') && IsFraction(s[DigitRun(s)..])
  }

  predicate IsNumber(s: string) {
    if s != "" && s[0] == '-' then IsUnsigned(s[1..]) else IsUnsigned(s)
  }

  predicate IsScalar(s: string) {
    s == "true" || s == "false" || s == "null" || IsNumber(s)
  }

  // ---------- reading ----------

  predicate IsDelimiter(c: char) {
    IsWs(c) || c == '"' || c == ',' || c == ':' || c == '[' || c == ']' || c == '{' || c == '}'
  }

  /** A scalar extends to the next delimiter. */
  function ScalarRun(s: string): (n: nat)
    ensures n <= |s|
  {
    if s != "" && !IsDelimiter(s[0]) then 1 + ScalarRun(s[1..]) else 0
  }

  /** Characters that stand for themselves in a string (section 7). */
  predicate IsPlain(c: char) {
    c != '"' && c != '\\' && c >= ' '
  }

  /** The characters of a string up to its closing quote; an escape or a control character ends it. */
  function StringRun(s: string): (n: nat)
    ensures n <= |s|
  {
    if s != "" && IsPlain(s[0]) then 1 + StringRun(s[1..]) else 0
  }

  function ReadString(s: string): (r: Option<(string, string)>)
    ensures r.Some? ==> |r.value.1| < |s|
  {
    if s == "" || s[0] != '"' then None else
    var t := s[1..];
    var n := StringRun(t);
    if n < |t| && t[n] == '"' then Some((t[..n], t[n + 1..])) else None
  }

  /** A member's name and colon. */
  function ReadName(s: string): (r: Option<(Option<string>, string)>)
    ensures r.Some? ==> |r.value.1| < |s|
  {
    match ReadString(s)
    case None => None
    case Some((name, t)) =>
      var u := SkipWs(t);
      if u != "" && u[0] == ':' then Some((Some(name), SkipWs(u[1..]))) else None
  }

  function Closer(braces: bool): char {
    if braces then '}' else ']'
  }

  function Container(braces: bool, items: Items): Value {
    if braces then Object(items) else Array(items)
  }

  function ReadValue(s: string): (r: Option<(Value, string)>)
    ensures r.Some? ==> |r.value.1| < |s|
    decreases |s|, 0
  {
    if s == "" then None
    else if s[0] == '"' then
      match ReadString(s)
      case None => None
      case Some((content, rest)) => Some((Str(content), rest))
    else if s[0] == '{' || s[0] == '[' then
      var braces := s[0] == '{';
      var t := SkipWs(s[1..]);
      if t != "" && t[0] == Closer(braces) then Some((Container(braces, End), t[1..]))
      else
        match ReadItems(t, braces)
        case None => None
        case Some((items, rest)) => Some((Container(braces, items), rest))
    else
      var n := ScalarRun(s);
      if IsScalar(s[..n]) && n > 0 then Some((Scalar(s[..n]), s[n..])) else None
  }

  /** One or more items up to and including the closing bracket. */
  function ReadItems(s: string, braces: bool): (r: Option<(Items, string)>)
    ensures r.Some? ==> |r.value.1| < |s|
    decreases |s|, 1
  {
    match (if braces then ReadName(s) else Some((None, s)))
    case None => None
    case Some((name, t)) =>
      match ReadValue(t)
      case None => None
      case Some((value, u)) =>
        var w := SkipWs(u);
        if w == "" then None
        else if w[0] == Closer(braces) then Some((Item(name, value, End), w[1..]))
        else if w[0] != ',' then None
        else
          match ReadItems(SkipWs(w[1..]), braces)
          case None => None
          case Some((tail, rest)) => Some((Item(name, value, tail), rest))
  }

  /** The value of a JSON text; None when it is not one. */
  function Parse(text: string): Option<Value> {
    match ReadValue(SkipWs(text))
    case None => None
    case Some((value, rest)) => if SkipWs(rest) == "" then Some(value) else None
  }

  // ---------- lemmas for reading known texts ----------

  lemma {:induction false} SkipsWs(ws: string, rest: string)
    requires AllWs(ws)
    ensures SkipWs(ws + rest) == SkipWs(rest)
  {
    if ws == "" {
      assert ws + rest == rest;
    } else {
      assert (ws + rest)[0] == ws[0] && (ws + rest)[1..] == ws[1..] + rest;
      SkipsWs(ws[1..], rest);
    }
  }

  lemma {:induction false} StringRunIsWhole(content: string, rest: string)
    requires forall c <- content :: IsPlain(c)
    requires rest != "" && rest[0] == '"'
    ensures StringRun(content + rest) == |content|
  {
    if content == "" {
      assert content + rest == rest;
    } else {
      assert (content + rest)[0] == content[0] && (content + rest)[1..] == content[1..] + rest;
      StringRunIsWhole(content[1..], rest);
    }
  }

  lemma ReadsString(content: string, rest: string)
    requires forall c <- content :: IsPlain(c)
    ensures ReadString(['"'] + (content + (['"'] + rest))) == Some((content, rest))
  {
    var t := content + (['"'] + rest);
    assert (['"'] + t)[1..] == t;
    StringRunIsWhole(content, ['"'] + rest);
    assert t[..|content|] == content && t[|content|] == '"' && t[|content| + 1..] == rest;
  }

  lemma {:induction false} ScalarRunIsWhole(text: string, rest: string)
    requires forall c <- text :: !IsDelimiter(c)
    requires rest == "" || IsDelimiter(rest[0])
    ensures ScalarRun(text + rest) == |text|
  {
    if text == "" {
      assert text + rest == rest;
    } else {
      assert (text + rest)[0] == text[0] && (text + rest)[1..] == text[1..] + rest;
      ScalarRunIsWhole(text[1..], rest);
    }
  }

  predicate IsScalarChar(c: char) {
    Decimal.IsDigit(c) || c in "+-.eEtrufalsn"
  }

  lemma {:induction false} DigitRunDigits(s: string)
    ensures forall c <- s[..DigitRun(s)] :: Decimal.IsDigit(c)
  {
    if s != "" && Decimal.IsDigit(s[0]) {
      DigitRunDigits(s[1..]);
      assert s[..DigitRun(s)] == [s[0]] + s[1..][..DigitRun(s[1..])];
    }
  }

  lemma ExponentChars(s: string)
    requires IsExponent(s)
    ensures forall c <- s :: IsScalarChar(c)
  {
    if s != "" {
      var signed := |s| > 1 && (s[1] == '+' || s[1] == '-');
      var t := if signed then s[2..] else s[1..];
      DigitRunDigits(t);
      assert t[..|t|] == t;
      assert s == (if signed then s[..2] else s[..1]) + t;
    }
  }

  lemma FractionChars(s: string)
    requires IsFraction(s)
    ensures forall c <- s :: IsScalarChar(c)
  {
    if s != "" && s[0] == '.' {
      var t := s[1..];
      var n := DigitRun(t);
      DigitRunDigits(t);
      ExponentChars(t[n..]);
      assert s == [s[0]] + t[..n] + t[n..];
    } else {
      ExponentChars(s);
    }
  }

  lemma UnsignedChars(s: string)
    requires IsUnsigned(s)
    ensures forall c <- s :: IsScalarChar(c)
  {
    DigitRunDigits(s);
    FractionChars(s[DigitRun(s)..]);
    assert s == s[..DigitRun(s)] + s[DigitRun(s)..];
  }

  lemma ScalarChars(s: string)
    requires IsScalar(s)
    ensures s != "" && forall c <- s :: IsScalarChar(c)
  {
    if s != "true" && s != "false" && s != "null" {
      if s != "" && s[0] == '-' {
        UnsignedChars(s[1..]);
        assert s == [s[0]] + s[1..];
      } else {
        UnsignedChars(s);
      }
    }
  }

  lemma ReadsScalar(text: string, rest: string)
    requires IsScalar(text) && (rest == "" || IsDelimiter(rest[0]))
    ensures ReadValue(text + rest) == Some((Scalar(text), rest))
  {
    ScalarChars(text);
    ScalarRunIsWhole(text, rest);
    assert (text + rest)[0] == text[0] && text[0] in text;
    assert (text + rest)[..|text|] == text && (text + rest)[|text|..] == rest;
  }
}
