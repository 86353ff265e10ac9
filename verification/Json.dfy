/** JSON text (RFC 8259): the encoder's output and the decoder's reading of it. */
module Json {
  import opened Options
  import opened Text

  datatype Json =
    | Null
    | Bool(b: bool)
    | Number(text: string)
    | Str(s: string)
    | Array(items: seq<Json>)
    | Object(members: seq<Member>)

  datatype Member = Member(key: string, value: Json)

  /** A parse step: what was read and the text after it. */
  type Parsed<T> = Option<(T, string)>

  // ---------------------------------------------------------------- writing

  function HexDigit(d: int): char
    requires 0 <= d < 16
  {
    "0123456789abcdef"[d]
  }

  /** The \u form of a code below 0x10000. */
  function UnicodeEscape(code: int): string
    requires 0 <= code < 0x10000
  {
    ['\\', 'u', HexDigit(code / 4096), HexDigit(code / 256 % 16), HexDigit(code / 16 % 16), HexDigit(code % 16)]
  }

  /** The characters with a two-character escape. */
  predicate ShortEscaped(c: char) {
    c == '"' || c == '\\' || c == '\U{0008}' || c == '\U{000C}' || c == '\n' || c == '\r' || c == '\t'
  }

  function ShortEscape(c: char): string
    requires ShortEscaped(c)
  {
    ['\\', if c == '\U{0008}' then 'b' else if c == '\U{000C}' then 'f' else if c == '\n' then 'n'
           else if c == '\r' then 'r' else if c == '\t' then 't' else c]
  }

  /** The other control characters, and the ones that would end a script or a markup. */
  predicate UnicodeEscaped(c: char) {
    c < ' ' || c == '<' || c == '>' || c == '&' || c == '\U{2028}' || c == '\U{2029}'
  }

  /** One character as the encoder writes it inside a string. */
  function EscapeChar(c: char): string {
    if ShortEscaped(c) then ShortEscape(c)
    else if UnicodeEscaped(c) then UnicodeEscape(c as int)
    else [c]
  }

  function Escape(s: string): string {
    if s == "" then "" else EscapeChar(s[0]) + Escape(s[1..])
  }

  function PrintString(s: string): string {
    "\"" + (Escape(s) + "\"")
  }

  function Print(j: Json): string
    decreases j, 0
  {
    match j
    case Null => "null"
    case Bool(b) => if b then "true" else "false"
    case Number(text) => text
    case Str(s) => PrintString(s)
    case Array(items) => if items == [] then "[]" else "[" + PrintItems(items)
    case Object(members) => if members == [] then "{}" else "{" + PrintMembers(members)
  }

  /** The items of a nonempty array up to its closing bracket. */
  function PrintItems(items: seq<Json>): string
    requires items != []
    decreases items, 1
  {
    Print(items[0]) + if |items| == 1 then "]" else "," + PrintItems(items[1..])
  }

  /** The members of a nonempty object up to its closing brace. */
  function PrintMembers(members: seq<Member>): string
    requires members != []
    decreases members, 1
  {
    PrintString(members[0].key) + (":" + (Print(members[0].value) + if |members| == 1 then "}" else "," + PrintMembers(members[1..])))
  }

  // ---------------------------------------------------------------- reading

  predicate IsBlank(c: char) {
    c == ' ' || c == '\t' || c == '\n' || c == '\r'
  }

  function SkipBlanks(t: string): (r: string)
    ensures |r| <= |t|
  {
    if t != "" && IsBlank(t[0]) then SkipBlanks(t[1..]) else t
  }

  predicate IsHex(c: char) {
    '0' <= c <= '9' || 'a' <= c <= 'f' || 'A' <= c <= 'F'
  }

  function HexValue(c: char): (v: int)
    requires IsHex(c)
    ensures 0 <= v < 16
  {
    if c <= '9' then c as int - '0' as int
    else if c <= 'F' then c as int - 'A' as int + 10
    else c as int - 'a' as int + 10
  }

  /** The code of the \u escape a text starts with, if it does. */
  function ParseUnicodeEscape(t: string): (code: Option<int>)
    ensures code.Some? ==> 0 <= code.value < 0x10000 && |t| >= 6
  {
    if |t| < 6 || t[0] != '\\' || t[1] != 'u' || !IsHex(t[2]) || !IsHex(t[3]) || !IsHex(t[4]) || !IsHex(t[5]) then None
    else Some(4096 * HexValue(t[2]) + 256 * HexValue(t[3]) + 16 * HexValue(t[4]) + HexValue(t[5]))
  }

  /** The character of a \u escape; a high surrogate takes the low one after it, a lone
      surrogate reads as U+FFFD. */
  function ParseUnicodeChar(t: string): (r: Parsed<char>)
    ensures r.Some? ==> |r.value.1| < |t|
  {
    var code := ParseUnicodeEscape(t);
    if code.None? then None
    else if 0xD800 <= code.value < 0xDC00 then
      var low := ParseUnicodeEscape(t[6..]);
      if low.Some? && 0xDC00 <= low.value < 0xE000
      then Some(((0x10000 + (code.value - 0xD800) * 1024 + (low.value - 0xDC00)) as char, t[12..]))
      else Some(('\U{FFFD}', t[6..]))
    else if 0xDC00 <= code.value < 0xE000 then Some(('\U{FFFD}', t[6..]))
    else Some((code.value as char, t[6..]))
  }

  /** One character of a string body. */
  function ParseChar(t: string): (r: Parsed<char>)
    ensures r.Some? ==> |r.value.1| < |t|
  {
    if t == "" || t[0] == '"' || t[0] < ' ' then None
    else if t[0] != '\\' then Some((t[0], t[1..]))
    else if |t| < 2 then None
    else if t[1] == '"' || t[1] == '\\' || t[1] == '/' then Some((t[1], t[2..]))
    else if t[1] == 'b' then Some(('\U{0008}', t[2..]))
    else if t[1] == 'f' then Some(('\U{000C}', t[2..]))
    else if t[1] == 'n' then Some(('\n', t[2..]))
    else if t[1] == 'r' then Some(('\r', t[2..]))
    else if t[1] == 't' then Some(('\t', t[2..]))
    else ParseUnicodeChar(t)
  }

  /** A string body and its closing quote. */
  function ParseChars(t: string): (r: Parsed<string>)
    ensures r.Some? ==> |r.value.1| < |t|
    decreases |t|
  {
    if t != "" && t[0] == '"' then Some(("", t[1..]))
    else
      var c := ParseChar(t);
      if c.None? then None
      else
        var more := ParseChars(c.value.1);
        if more.None? then None else Some(([c.value.0] + more.value.0, more.value.1))
  }

  function ParseString(t: string): (r: Parsed<string>)
    ensures r.Some? ==> |r.value.1| < |t|
  {
    if t == "" || t[0] != '"' then None else ParseChars(t[1..])
  }

  /** The digits a text starts with. */
  function DigitRun(t: string): (n: nat)
    ensures n <= |t|
  {
    if t != "" && IsDigit(t[0]) then 1 + DigitRun(t[1..]) else 0
  }

  /** The length of the fraction a text starts with; none is zero, a bare point is refused. */
  function FractionRun(t: string): (n: Option<nat>)
    ensures n.Some? ==> n.value <= |t|
  {
    if t == "" || t[0] != '.' then Some(0)
    else if DigitRun(t[1..]) == 0 then None
    else Some(1 + DigitRun(t[1..]))
  }

  function ExponentRun(t: string): (n: Option<nat>)
    ensures n.Some? ==> n.value <= |t|
  {
    if t == "" || (t[0] != 'e' && t[0] != 'E') then Some(0)
    else
      var sign := if |t| > 1 && (t[1] == '+' || t[1] == '-') then 1 else 0;
      if DigitRun(t[1 + sign..]) == 0 then None
      else Some(1 + sign + DigitRun(t[1 + sign..]))
  }

  /** A number literal, kept as its text. */
  function ParseNumber(t: string): (r: Parsed<Json>)
    ensures r.Some? ==> |r.value.1| < |t|
  {
    var sign := if t != "" && t[0] == '-' then 1 else 0;
    var body := t[sign..];
    if body == "" || !IsDigit(body[0]) then None
    else
      var whole := if body[0] == '0' then 1 else DigitRun(body);
      var fraction := FractionRun(body[whole..]);
      if fraction.None? then None
      else
        var upTo := whole + fraction.value;
        var exponent := ExponentRun(body[upTo..]);
        if exponent.None? then None
        else
          var n := sign + upTo + exponent.value;
          Some((Number(t[..n]), t[n..]))
  }

  /** One value, at the start of the text. */
  function ParseValue(t: string): (r: Parsed<Json>)
    ensures r.Some? ==> |r.value.1| < |t|
    decreases |t|, 0
  {
    if t == "" then None
    else if "null" <= t then Some((Null, t[4..]))
    else if "true" <= t then Some((Bool(true), t[4..]))
    else if "false" <= t then Some((Bool(false), t[5..]))
    else if t[0] == '"' then
      var s := ParseString(t);
      if s.None? then None else Some((Str(s.value.0), s.value.1))
    else if t[0] == '[' then
      var r := SkipBlanks(t[1..]);
      if r != "" && r[0] == ']' then Some((Array([]), r[1..]))
      else
        var items := ParseItems(r);
        if items.None? then None else Some((Array(items.value.0), items.value.1))
    else if t[0] == '{' then
      var r := SkipBlanks(t[1..]);
      if r != "" && r[0] == '}' then Some((Object([]), r[1..]))
      else
        var members := ParseMembers(r);
        if members.None? then None else Some((Object(members.value.0), members.value.1))
    else ParseNumber(t)
  }

  function ParseItems(t: string): (r: Parsed<seq<Json>>)
    ensures r.Some? ==> |r.value.1| < |t|
    decreases |t|, 1
  {
    var v := ParseValue(t);
    if v.None? then None
    else
      var r := SkipBlanks(v.value.1);
      if r == "" then None
      else if r[0] == ']' then Some(([v.value.0], r[1..]))
      else if r[0] == ',' then
        var more := ParseItems(SkipBlanks(r[1..]));
        if more.None? then None else Some(([v.value.0] + more.value.0, more.value.1))
      else None
  }

  function ParseMembers(t: string): (r: Parsed<seq<Member>>)
    ensures r.Some? ==> |r.value.1| < |t|
    decreases |t|, 1
  {
    var key := ParseString(t);
    if key.None? then None
    else
      var colon := SkipBlanks(key.value.1);
      if colon == "" || colon[0] != ':' then None
      else
        var v := ParseValue(SkipBlanks(colon[1..]));
        if v.None? then None
        else
          var r := SkipBlanks(v.value.1);
          var member := Member(key.value.0, v.value.0);
          if r == "" then None
          else if r[0] == '}' then Some(([member], r[1..]))
          else if r[0] == ',' then
            var more := ParseMembers(SkipBlanks(r[1..]));
            if more.None? then None else Some(([member] + more.value.0, more.value.1))
          else None
  }

  /** A document: one value, blanks around it, nothing after. */
  function ParseDocument(t: string): Option<Json> {
    var v := ParseValue(SkipBlanks(t));
    if v.Some? && SkipBlanks(v.value.1) == "" then Some(v.value.0) else None
  }

  // ---------------------------------------------------------------- round trip

  lemma UnicodeEscapeRoundTrip(code: int, rest: string)
    requires 0 <= code < 0x10000
    ensures ParseUnicodeEscape(UnicodeEscape(code) + rest) == Some(code)
    ensures (UnicodeEscape(code) + rest)[6..] == rest
  {
    hide HexDigit, HexValue, IsHex;
    var a, b, c, d := code / 4096, code / 256 % 16, code / 16 % 16, code % 16;
    HexRoundTrip(a);
    HexRoundTrip(b);
    HexRoundTrip(c);
    HexRoundTrip(d);
    FourHexDigits(code);
  }

  lemma FourHexDigits(code: int)
    requires 0 <= code < 0x10000
    ensures code == 4096 * (code / 4096) + 256 * (code / 256 % 16) + 16 * (code / 16 % 16) + code % 16
  {
    assert code / 16 / 16 == code / 256 && code / 256 / 16 == code / 4096;
  }

  lemma HexRoundTrip(d: int)
    requires 0 <= d < 16
    ensures IsHex(HexDigit(d)) && HexValue(HexDigit(d)) == d
  {
  }

  /** Reading one written character gives it back. */
  lemma CharRoundTrip(c: char, rest: string)
    ensures ParseChar(EscapeChar(c) + rest) == Some((c, rest))
    ensures (EscapeChar(c) + rest)[0] != '"'
  {
    if ShortEscaped(c) {
      hide ParseUnicodeChar;
      assert (ShortEscape(c) + rest)[2..] == rest;
    } else if UnicodeEscaped(c) {
      UnicodeCharRoundTrip(c, rest);
    } else {
      assert ([c] + rest)[1..] == rest;
    }
  }

  lemma UnicodeCharRoundTrip(c: char, rest: string)
    requires (c as int) < 0xD800
    ensures ParseChar(UnicodeEscape(c as int) + rest) == Some((c, rest))
  {
    hide ParseUnicodeEscape;
    UnicodeEscapeRoundTrip(c as int, rest);
  }

  lemma {:induction false} CharsRoundTrip(s: string, rest: string)
    ensures ParseChars(Escape(s) + ("\"" + rest)) == Some((s, rest))
  {
    if s == "" {
      assert Escape(s) + ("\"" + rest) == "\"" + rest;
      assert ("\"" + rest)[1..] == rest;
    } else {
      hide ParseChar, EscapeChar;
      var more := Escape(s[1..]) + ("\"" + rest);
      assert Escape(s) + ("\"" + rest) == EscapeChar(s[0]) + more;
      CharRoundTrip(s[0], more);
      CharsRoundTrip(s[1..], rest);
      assert [s[0]] + s[1..] == s;
    }
  }

  /** Reading a written string gives it back, whatever follows. */
  lemma StringRoundTrip(s: string, rest: string)
    ensures ParseString(PrintString(s) + rest) == Some((s, rest))
  {
    hide ParseChars, Escape;
    CharsRoundTrip(s, rest);
    assert PrintString(s) + rest == "\"" + (Escape(s) + ("\"" + rest));
    assert (PrintString(s) + rest)[1..] == Escape(s) + ("\"" + rest);
  }

  /** A natural number's literal. */
  predicate PlainNumber(text: string) {
    text != "" && AllDigits(text) && (text[0] == '0' ==> text == "0")
  }

  /** The values the encoder writes and the decoder reads back: every number a plain natural. */
  ghost predicate Printable(j: Json) {
    match j
    case Number(text) => PlainNumber(text)
    case Array(items) => forall i :: 0 <= i < |items| ==> Printable(items[i])
    case Object(members) => forall i :: 0 <= i < |members| ==> Printable(members[i].value)
    case _ => true
  }

  /** What may follow a value. */
  predicate Delimits(rest: string) {
    rest != "" ==> rest[0] == ',' || rest[0] == ']' || rest[0] == '}' || IsBlank(rest[0])
  }

  lemma NoDigitDelimits(rest: string)
    requires Delimits(rest)
    ensures DigitRun(rest) == 0
  {
    assert rest != "" ==> !IsDigit(rest[0]);
  }

  lemma {:induction false} DigitRunIs(text: string, rest: string)
    requires AllDigits(text) && Delimits(rest)
    ensures DigitRun(text + rest) == |text|
  {
    hide Delimits;
    if text == "" {
      NoDigitDelimits(rest);
      assert text + rest == rest;
    } else {
      assert AllDigits(text[1..]);
      DigitRunIs(text[1..], rest);
      assert (text + rest)[1..] == text[1..] + rest && (text + rest)[0] == text[0];
    }
  }

  lemma NumberRoundTrip(text: string, rest: string)
    requires PlainNumber(text) && Delimits(rest)
    ensures ParseNumber(text + rest) == Some((Number(text), rest))
  {
    var t := text + rest;
    assert t[0] == text[0] && IsDigit(t[0]) && t[0..] == t;
    DigitRunIs(text, rest);
    assert t[|text|..] == rest && t[..|text|] == text;
  }

  /** How a written value starts. */
  lemma PrintStart(j: Json)
    requires Printable(j)
    ensures Print(j) != "" && !IsBlank(Print(j)[0]) && Print(j)[0] != ']' && Print(j)[0] != '}'
  {
  }

  lemma PrintMembersStart(members: seq<Member>)
    requires members != []
    ensures PrintMembers(members) != "" && PrintMembers(members)[0] == '"'
  {
    hide Print, Escape;
    var s := PrintString(members[0].key);
    assert s != "" && s[0] == '"';
    assert PrintMembers(members)[0] == s[0];
  }

  lemma NoBlanks(a: string, b: string)
    requires a != "" && !IsBlank(a[0])
    ensures SkipBlanks(a + b) == a + b
  {
    assert (a + b)[0] == a[0];
  }

  /** Reading a written value gives it back, whatever delimiter follows. */
  lemma {:induction false} ValueRoundTrip(j: Json, rest: string)
    requires Printable(j) && Delimits(rest)
    ensures ParseValue(Print(j) + rest) == Some((j, rest))
    decreases j, 0
  {
    match j
    case Null => KeywordRoundTrip("null", rest);
    case Bool(b) => KeywordRoundTrip(if b then "true" else "false", rest);
    case Number(text) => NumberValueRoundTrip(text, rest);
    case Str(s) => StringValueRoundTrip(s, rest);
    case Array(items) =>
      if items == [] {
        EmptyRoundTrip(rest);
      } else {
        ItemsRoundTrip(items, rest);
        PrintStart(items[0]);
        ArrayValue(PrintItems(items), items, rest);
      }
    case Object(members) =>
      if members == [] {
        EmptyRoundTrip(rest);
      } else {
        MembersRoundTrip(members, rest);
        PrintMembersStart(members);
        ObjectValue(PrintMembers(members), members, rest);
      }
  }

  lemma KeywordRoundTrip(word: string, rest: string)
    requires word == "null" || word == "true" || word == "false"
    ensures ParseValue(word + rest) == Some((if word == "null" then Null else Bool(word == "true"), rest))
  {
    var t := word + rest;
    assert t[0] == word[0] && word <= t && t[|word|..] == rest;
  }

  lemma NotKeyword(t: string)
    requires t != "" && t[0] != 'n' && t[0] != 't' && t[0] != 'f'
    ensures !("null" <= t) && !("true" <= t) && !("false" <= t)
  {
    assert "null"[0] == 'n' && "true"[0] == 't' && "false"[0] == 'f';
  }

  lemma NumberValueRoundTrip(text: string, rest: string)
    requires PlainNumber(text) && Delimits(rest)
    ensures ParseValue(text + rest) == Some((Number(text), rest))
  {
    hide ParseNumber;
    NumberRoundTrip(text, rest);
    assert (text + rest)[0] == text[0];
    NotKeyword(text + rest);
  }

  lemma StringValueRoundTrip(s: string, rest: string)
    ensures ParseValue(PrintString(s) + rest) == Some((Str(s), rest))
  {
    hide ParseString, Escape;
    StringRoundTrip(s, rest);
    assert (PrintString(s) + rest)[0] == '"';
    NotKeyword(PrintString(s) + rest);
  }

  lemma EmptyRoundTrip(rest: string)
    ensures ParseValue("[]" + rest) == Some((Array([]), rest))
    ensures ParseValue("{}" + rest) == Some((Object([]), rest))
  {
    assert ("[]" + rest)[1..] == "]" + rest && ("]" + rest)[1..] == rest;
    assert ("{}" + rest)[1..] == "}" + rest && ("}" + rest)[1..] == rest;
    NotKeyword("[]" + rest);
    NotKeyword("{}" + rest);
  }

  lemma ArrayValue(body: string, items: seq<Json>, rest: string)
    requires body != "" && !IsBlank(body[0]) && body[0] != ']'
    requires ParseItems(body + rest) == Some((items, rest))
    ensures ParseValue(("[" + body) + rest) == Some((Array(items), rest))
  {
    hide ParseItems;
    var t := ("[" + body) + rest;
    assert t[1..] == body + rest;
    NoBlanks(body, rest);
    NotKeyword(t);
  }

  lemma ObjectValue(body: string, members: seq<Member>, rest: string)
    requires body != "" && body[0] == '"'
    requires ParseMembers(body + rest) == Some((members, rest))
    ensures ParseValue(("{" + body) + rest) == Some((Object(members), rest))
  {
    hide ParseMembers;
    var t := ("{" + body) + rest;
    assert t[1..] == body + rest;
    NoBlanks(body, rest);
    NotKeyword(t);
  }

  lemma {:induction false} ItemsRoundTrip(items: seq<Json>, rest: string)
    requires items != [] && forall i :: 0 <= i < |items| ==> Printable(items[i])
    ensures ParseItems(PrintItems(items) + rest) == Some((items, rest))
    decreases items, 1
  {
    hide Print, ParseValue, Printable;
    var first := Print(items[0]);
    if |items| == 1 {
      ValueRoundTrip(items[0], "]" + rest);
      assert PrintItems(items) + rest == first + ("]" + rest);
      assert ("]" + rest)[1..] == rest && items == [items[0]];
    } else {
      var tail := items[1..];
      var more := PrintItems(tail) + rest;
      ItemsRoundTrip(tail, rest);
      ValueRoundTrip(items[0], "," + more);
      assert PrintItems(items) + rest == first + ("," + more);
      assert ("," + more)[1..] == more;
      PrintStart(items[1]);
      PrintItemsStart(tail);
      NoBlanks(PrintItems(tail), rest);
      assert [items[0]] + tail == items;
    }
  }

  lemma PrintItemsStart(items: seq<Json>)
    requires items != [] && Print(items[0]) != ""
    ensures PrintItems(items) != "" && PrintItems(items)[0] == Print(items[0])[0]
  {
    hide Print;
  }

  lemma {:induction false} MembersText(members: seq<Member>, rest: string, more: string)
    requires members != [] && more == if |members| == 1 then "}" + rest else "," + (PrintMembers(members[1..]) + rest)
    ensures PrintMembers(members) + rest == PrintString(members[0].key) + (":" + (Print(members[0].value) + more))
  {
    hide Print, PrintString;
    var key, value := PrintString(members[0].key), Print(members[0].value);
    if |members| == 1 {
      assert (key + (":" + (value + "}"))) + rest == key + (":" + (value + ("}" + rest)));
    } else {
      var tail := PrintMembers(members[1..]);
      assert (key + (":" + (value + ("," + tail)))) + rest == key + (":" + (value + ("," + (tail + rest))));
    }
  }

  lemma {:induction false} MembersRoundTrip(members: seq<Member>, rest: string)
    requires members != [] && forall i :: 0 <= i < |members| ==> Printable(members[i].value)
    ensures ParseMembers(PrintMembers(members) + rest) == Some((members, rest))
    decreases members, 1
  {
    hide Print, ParseValue, Printable, ParseMembers, PrintMembers;
    var m := members[0];
    var more := if |members| == 1 then "}" + rest else "," + (PrintMembers(members[1..]) + rest);
    ValueRoundTrip(m.value, more);
    PrintStart(m.value);
    MembersText(members, rest, more);
    FirstMember(m, Print(m.value), more);
    if |members| == 1 {
      assert ("}" + rest)[1..] == rest && members == [m];
    } else {
      var tail := members[1..];
      MembersRoundTrip(tail, rest);
      PrintMembersStart(tail);
      NoBlanks(PrintMembers(tail), rest);
      assert more[1..] == PrintMembers(tail) + rest;
      assert [m] + tail == members;
    }
  }

  /** Reading one member, up to the comma or the brace after it. */
  lemma FirstMember(m: Member, value: string, more: string)
    requires ParseValue(value + more) == Some((m.value, more)) && value != "" && !IsBlank(value[0])
    requires more != "" && (more[0] == '}' || more[0] == ',')
    ensures ParseMembers(PrintString(m.key) + (":" + (value + more)))
         == if more[0] == '}' then Some(([m], more[1..]))
            else
              var next := ParseMembers(SkipBlanks(more[1..]));
              if next.None? then None else Some(([m] + next.value.0, next.value.1))
  {
    hide ParseValue, ParseString, PrintString;
    StringRoundTrip(m.key, ":" + (value + more));
    NoBlanks(value, more);
    assert (":" + (value + more))[1..] == value + more;
  }

  /** A written document reads back as itself. */
  lemma DocumentRoundTrip(j: Json)
    requires Printable(j)
    ensures ParseDocument(Print(j)) == Some(j)
  {
    hide Print, ParseValue, Printable;
    ValueRoundTrip(j, "");
    PrintStart(j);
    NoBlanks(Print(j), "");
    assert Print(j) + "" == Print(j);
  }

  /** The characters the encoder never writes inside a string: controls, the marks of markup and
      the two line separators. */
  predicate Unsafe(c: char) {
    c < ' ' || c == '<' || c == '>' || c == '&' || c == '\U{2028}' || c == '\U{2029}'
  }

  lemma HexIsSafe(d: int)
    requires 0 <= d < 16
    ensures !Unsafe(HexDigit(d))
  {
  }

  lemma UnicodeEscapeIsSafe(code: int)
    requires 0 <= code < 0x10000
    ensures forall i :: 0 <= i < |UnicodeEscape(code)| ==> !Unsafe(UnicodeEscape(code)[i])
  {
    hide HexDigit;
    HexIsSafe(code / 4096);
    HexIsSafe(code / 256 % 16);
    HexIsSafe(code / 16 % 16);
    HexIsSafe(code % 16);
  }

  lemma EscapedCharIsSafe(c: char)
    ensures forall i :: 0 <= i < |EscapeChar(c)| ==> !Unsafe(EscapeChar(c)[i])
  {
    hide UnicodeEscape;
    if UnicodeEscaped(c) && !ShortEscaped(c) {
      UnicodeEscapeIsSafe(c as int);
    }
  }

  /** A written string holds none of them, whatever it spells. */
  lemma {:induction false} EscapedIsSafe(s: string)
    ensures forall i :: 0 <= i < |Escape(s)| ==> !Unsafe(Escape(s)[i])
  {
    hide EscapeChar, Unsafe;
    if s != "" {
      EscapedCharIsSafe(s[0]);
      EscapedIsSafe(s[1..]);
    }
  }
}
