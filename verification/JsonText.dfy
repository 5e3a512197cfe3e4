/**
 * The text `json.dumps` writes for a value whose dicts are in key order, with separators "," and ":"
 * and `ensure_ascii=False`, and a parser (RFC 8259, sections 4 to 7) that undoes it.
 */
module JsonText {
  import opened JsonValue
  import opened Utf8
  import opened Options

  // ----- strings (section 7)

  function HexDigit(n: nat): char
    requires n < 16
  {
    "0123456789abcdef"[n]
  }

  function HexValue(c: char): (r: int)
    ensures -1 <= r < 16
  {
    if '0' <= c <= '9' then c as int - '0' as int
    else if 'a' <= c <= 'f' then c as int - 'a' as int + 10
    else -1
  }

  const QUOTE := '"'
  const BACKSLASH := '\\'
  const BACKSPACE := 8 as char
  const FORM_FEED := 12 as char

  function Escape(c: char): (r: string)
    ensures r != [] && r[0] != QUOTE
  {
    if c == QUOTE then [BACKSLASH, QUOTE]
    else if c == BACKSLASH then [BACKSLASH, BACKSLASH]
    else if c == '\n' then [BACKSLASH, 'n']
    else if c == '\r' then [BACKSLASH, 'r']
    else if c == '\t' then [BACKSLASH, 't']
    else if c == BACKSPACE then [BACKSLASH, 'b']
    else if c == FORM_FEED then [BACKSLASH, 'f']
    else if c as int < 32 then [BACKSLASH, 'u', '0', '0', HexDigit(c as int / 16), HexDigit(c as int % 16)]
    else [c]
  }

  function EscapeAll(s: string): string {
    if s == [] then [] else Escape(s[0]) + EscapeAll(s[1..])
  }

  function Quoted(s: string): string {
    [QUOTE] + EscapeAll(s) + [QUOTE]
  }

  /** The character an escape or a plain character stands for, and the length it took. */
  function ReadChar(s: string): (r: Option<(char, nat)>)
    requires s != []
    ensures r.Some? ==> 1 <= r.value.1 <= |s|
  {
    if s[0] != BACKSLASH then
      if s[0] as int < 32 then None else Some((s[0], 1))
    else if |s| < 2 then None
    else if s[1] == 'n' then Some(('\n', 2))
    else if s[1] == 'r' then Some(('\r', 2))
    else if s[1] == 't' then Some(('\t', 2))
    else if s[1] == 'b' then Some((BACKSPACE, 2))
    else if s[1] == 'f' then Some((FORM_FEED, 2))
    else if s[1] == QUOTE || s[1] == BACKSLASH || s[1] == '/' then Some((s[1], 2))
    else if s[1] == 'u' && |s| >= 6 then ReadHex(s)
    else None
  }

  function ReadHex(s: string): (r: Option<(char, nat)>)
    requires |s| >= 6
    ensures r.Some? ==> r.value.1 == 6
  {
    var n := ((HexValue(s[2]) * 16 + HexValue(s[3])) * 16 + HexValue(s[4])) * 16 + HexValue(s[5]);
    if HexValue(s[2]) < 0 || HexValue(s[3]) < 0 || HexValue(s[4]) < 0 || HexValue(s[5]) < 0 || !Scalar(n) then None
    else Some((n as char, 6))
  }

  /** The rest of a string after its opening quote. */
  function ReadString(s: string): (r: Option<(string, string)>)
    ensures r.Some? ==> |r.value.1| < |s|
  {
    if s == [] then None
    else if s[0] == QUOTE then Some(([], s[1..]))
    else
      match ReadChar(s)
      case None => None
      case Some((c, used)) =>
        match ReadString(s[used..])
        case None => None
        case Some((rest, after)) => Some(([c] + rest, after))
  }

  lemma ReadEscape(c: char, tail: string)
    ensures ReadChar(Escape(c) + tail) == Some((c, |Escape(c)|))
  {
  }

  /** Reading one character off the front of a string's text. */
  lemma ReadStringStep(c: char, rest: string)
    ensures ReadString(Escape(c) + rest)
         == match ReadString(rest)
            case None => None
            case Some((more, after)) => Some(([c] + more, after))
  {
    var text := Escape(c) + rest;
    ReadEscape(c, rest);
    assert text[0] != QUOTE;
    assert text[|Escape(c)|..] == rest;
    hide ReadChar, Escape;
  }

  lemma {:induction false} ReadQuoted(s: string, tail: string)
    ensures ReadString(EscapeAll(s) + [QUOTE] + tail) == Some((s, tail))
  {
    hide Escape, ReadChar;
    if s == [] {
      assert EscapeAll(s) + [QUOTE] + tail == [QUOTE] + tail;
    } else {
      var rest := EscapeAll(s[1..]) + [QUOTE] + tail;
      assert EscapeAll(s) + [QUOTE] + tail == Escape(s[0]) + rest;
      ReadStringStep(s[0], rest);
      ReadQuoted(s[1..], tail);
      assert s == [s[0]] + s[1..];
    }
  }

  // ----- numbers (section 6)

  function Digit(n: nat): char
    requires n < 10
  {
    "0123456789"[n]
  }

  function Digits(n: nat): string {
    if n < 10 then [Digit(n)] else Digits(n / 10) + [Digit(n % 10)]
  }

  function IntText(n: int): string {
    if n < 0 then ['-'] + Digits(-n) else Digits(n)
  }

  function NatValue(t: string): int {
    if t == [] then 0 else NatValue(t[..|t| - 1]) * 10 + (t[|t| - 1] as int - '0' as int)
  }

  function IntValue(t: string): int {
    if t != [] && t[0] == '-' then -NatValue(t[1..]) else NatValue(t)
  }

  lemma {:induction false} DigitsRead(n: nat)
    ensures NatValue(Digits(n)) == n
    ensures Digits(n) != [] && forall i :: 0 <= i < |Digits(n)| ==> '0' <= Digits(n)[i] <= '9'
  {
    if n < 10 {
    } else {
      DigitsRead(n / 10);
      assert Digits(n)[..|Digits(n)| - 1] == Digits(n / 10);
    }
  }

  lemma IntRead(n: int)
    ensures IntValue(IntText(n)) == n
    ensures IntText(n) != [] && ('0' <= IntText(n)[0] <= '9' || IntText(n)[0] == '-')
    ensures forall i :: 0 <= i < |IntText(n)| ==>
                          NumberChar(IntText(n)[i]) && IntText(n)[i] != '.' && IntText(n)[i] != 'e'
  {
    DigitsRead(if n < 0 then -n else n);
    if n < 0 {
      assert IntText(n)[1..] == Digits(-n);
    }
  }

  /** The length of the longest prefix of number characters. */
  function Span(s: string): (r: nat)
    ensures r <= |s|
  {
    if s == [] || !NumberChar(s[0]) then 0 else 1 + Span(s[1..])
  }

  predicate Fractional(t: string) {
    exists i :: 0 <= i < |t| && (t[i] == '.' || t[i] == 'e')
  }

  function Number(t: string): Json {
    if Fractional(t) then Float(t) else Int(IntValue(t))
  }

  /** Text that cannot continue a number. */
  predicate Clean(s: string) {
    s == [] || !NumberChar(s[0])
  }

  lemma {:induction false} SpanOf(t: string, tail: string)
    requires (forall i :: 0 <= i < |t| ==> NumberChar(t[i])) && Clean(tail)
    ensures Span(t + tail) == |t|
  {
    if t == [] {
      assert t + tail == tail;
    } else {
      assert (t + tail)[1..] == t[1..] + tail;
      SpanOf(t[1..], tail);
    }
  }

  // ----- the printer

  function Emit(v: Json): string {
    match v
    case Null => "null"
    case Bool(b) => if b then "true" else "false"
    case Int(n) => IntText(n)
    case Float(token) => token
    case Str(s) => Quoted(s)
    case Arr(items) => ['['] + EmitItems(items) + [']']
    case Obj(members) => ['{'] + EmitMembers(members) + ['}']
  }

  function EmitItems(items: seq<Json>): string {
    if items == [] then []
    else if |items| == 1 then Emit(items[0])
    else Emit(items[0]) + [','] + EmitItems(items[1..])
  }

  function EmitMember(m: Member): string {
    Quoted(m.key) + [':'] + Emit(m.value)
  }

  function EmitMembers(ms: seq<Member>): string {
    if ms == [] then []
    else if |ms| == 1 then EmitMember(ms[0])
    else EmitMember(ms[0]) + [','] + EmitMembers(ms[1..])
  }

  // ----- the parser

  type Parsed<T> = Option<(T, string)>

  function After(s: string, word: string, v: Json): Parsed<Json> {
    if word <= s then Some((v, s[|word|..])) else None
  }

  function ParseValue(s: string): (r: Parsed<Json>)
    ensures r.Some? ==> |r.value.1| < |s|
    decreases |s|, 0
  {
    if s == [] then None
    else if s[0] == 'n' then After(s, "null", Null)
    else if s[0] == 't' then After(s, "true", Bool(true))
    else if s[0] == 'f' then After(s, "false", Bool(false))
    else if s[0] == QUOTE then
      match ReadString(s[1..])
      case None => None
      case Some((text, rest)) => Some((Str(text), rest))
    else if s[0] == '[' then
      if |s| > 1 && s[1] == ']' then Some((Arr([]), s[2..]))
      else
        match ParseItems(s[1..])
        case None => None
        case Some((items, rest)) => Some((Arr(items), rest))
    else if s[0] == '{' then
      if |s| > 1 && s[1] == '}' then Some((Obj([]), s[2..]))
      else
        match ParseMembers(s[1..])
        case None => None
        case Some((members, rest)) => Some((Obj(members), rest))
    else if Span(s) > 0 then Some((Number(s[..Span(s)]), s[Span(s)..]))
    else None
  }

  /** One or more array items and the closing bracket. */
  function ParseItems(s: string): (r: Parsed<seq<Json>>)
    ensures r.Some? ==> |r.value.1| < |s|
    decreases |s|, 1
  {
    match ParseValue(s)
    case None => None
    case Some((v, rest)) =>
      if rest == [] then None
      else if rest[0] == ']' then Some(([v], rest[1..]))
      else if rest[0] != ',' then None
      else
        match ParseItems(rest[1..])
        case None => None
        case Some((items, after)) => Some(([v] + items, after))
  }

  /** A key, a colon and a value. */
  function ParseMember(s: string): (r: Parsed<Member>)
    ensures r.Some? ==> |r.value.1| < |s|
    decreases |s|, 1
  {
    if s == [] || s[0] != QUOTE then None
    else
      match ReadString(s[1..])
      case None => None
      case Some((key, rest)) =>
        if rest == [] || rest[0] != ':' then None
        else
          match ParseValue(rest[1..])
          case None => None
          case Some((v, after)) => Some((Member(key, v), after))
  }

  /** One or more dict items and the closing brace. */
  function ParseMembers(s: string): (r: Parsed<seq<Member>>)
    ensures r.Some? ==> |r.value.1| < |s|
    decreases |s|, 2
  {
    match ParseMember(s)
    case None => None
    case Some((m, rest)) =>
      if rest == [] then None
      else if rest[0] == '}' then Some(([m], rest[1..]))
      else if rest[0] != ',' then None
      else
        match ParseMembers(rest[1..])
        case None => None
        case Some((members, after)) => Some(([m] + members, after))
  }
}
