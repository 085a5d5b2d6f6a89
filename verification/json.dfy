/**
 JSON texts as Python's `json` module writes and reads them (RFC 8259): `json.dumps` with its default
 separators and ASCII escapes, and a reader of the same grammar. A number is kept as its token.
 */
module Json {
  import opened Options

  datatype Value =
    | Null
    | Bool(b: bool)
    | Num(token: string)
    | Str(s: string)
    | Arr(items: seq<Value>)
    | Obj(members: seq<Member>)

  datatype Member = Member(key: string, value: Value)

  /** What the reader found, and what comes after it. */
  datatype Parsed<T> = Parsed(value: T, rest: string)

  predicate IsNumberChar(c: char) {
    c in "0123456789+-.eE"
  }

  predicate IsToken(token: string) {
    token != "" && (token[0] == '-' || '0' <= token[0] <= '9') && forall i | 0 <= i < |token| :: IsNumberChar(token[i])
  }

  predicate Valid(v: Value)
    decreases v, 1
  {
    match v
    case Num(token) => IsToken(token)
    case Arr(items) => forall i | 0 <= i < |items| :: Valid(items[i])
    case Obj(members) => forall i | 0 <= i < |members| :: Valid(members[i].value)
    case _ => true
  }

  // ----- Writing -----

  function HexDigit(n: nat): (c: char)
    requires n < 16
    ensures '0' <= c <= '9' || 'a' <= c <= 'f'
  {
    if n < 10 then ('0' as int + n) as char else ('a' as int + n - 10) as char
  }

  function Hex4(n: nat): (h: string)
    requires n < 0x1_0000
    ensures |h| == 4
  {
    var a := n / 16;
    var b := a / 16;
    [HexDigit(b / 16), HexDigit(b % 16), HexDigit(a % 16), HexDigit(n % 16)]
  }

  function UnicodeEscape(n: nat): (e: string)
    requires n < 0x1_0000
    ensures |e| == 6
  {
    "\\u" + Hex4(n)
  }

  /** One character of a string; `fenced` also escapes the angle brackets. */
  function EncodeChar(c: char, fenced: bool): string {
    var n := c as int;
    if c == '"' then "\\\""
    else if c == '\\' then "\\\\"
    else if c == '\n' then "\\n"
    else if c == '\r' then "\\r"
    else if c == '\t' then "\\t"
    else if n == 0x0c then "\\f"
    else if n == 0x08 then "\\b"
    else if fenced && (c == '<' || c == '>') then UnicodeEscape(n)
    else if 0x20 <= n <= 0x7e then [c]
    else if n < 0x1_0000 then UnicodeEscape(n)
    else UnicodeEscape(0xd800 + (n - 0x1_0000) / 0x400) + UnicodeEscape(0xdc00 + (n - 0x1_0000) % 0x400)
  }

  function EncodeChars(s: string, fenced: bool): string {
    if s == "" then "" else EncodeChar(s[0], fenced) + EncodeChars(s[1..], fenced)
  }

  function EncodeString(s: string, fenced: bool): string {
    "\"" + (EncodeChars(s, fenced) + "\"")
  }

  /** `json.dumps`. */
  function Encode(v: Value, fenced: bool): string
    decreases v, 1
  {
    match v
    case Null => "null"
    case Bool(b) => if b then "true" else "false"
    case Num(token) => token
    case Str(s) => EncodeString(s, fenced)
    case Arr(items) => if items == [] then "[]" else "[" + EncodeItems(items, fenced)
    case Obj(members) => if members == [] then "{}" else "{" + EncodeMembers(members, fenced)
  }

  /** The items with their separators, and the closing bracket. */
  function EncodeItems(items: seq<Value>, fenced: bool): string
    requires items != []
    decreases items, 0
  {
    Encode(items[0], fenced)
    + if |items| == 1 then "]" else ", " + EncodeItems(items[1..], fenced)
  }

  function EncodeMembers(members: seq<Member>, fenced: bool): string
    requires members != []
    decreases members, 0
  {
    EncodeString(members[0].key, fenced) + (": " + (Encode(members[0].value, fenced)
    + if |members| == 1 then "}" else ", " + EncodeMembers(members[1..], fenced)))
  }

  // ----- Reading -----

  function SkipSpace(s: string): (r: string)
    ensures |r| <= |s|
  {
    if s != "" && s[0] in " \t\n\r" then SkipSpace(s[1..]) else s
  }

  function HexValue(c: char): (n: Option<nat>)
    ensures n.Some? ==> n.value < 16
  {
    if '0' <= c <= '9' then Some(c as nat - '0' as nat)
    else if 'a' <= c <= 'f' then Some(10 + c as nat - 'a' as nat)
    else if 'A' <= c <= 'F' then Some(10 + c as nat - 'A' as nat)
    else None
  }

  /** The code unit of `\uXXXX` at the front. */
  function DecodeUnit(s: string): (n: Option<nat>)
    ensures n.Some? ==> n.value < 0x1_0000 && |s| >= 6
  {
    if |s| < 6 || s[..2] != "\\u" then None
    else
      var a, b, c, d := HexValue(s[2]), HexValue(s[3]), HexValue(s[4]), HexValue(s[5]);
      if a.Some? && b.Some? && c.Some? && d.Some?
      then Some(a.value * 4096 + b.value * 256 + c.value * 16 + d.value)
      else None
  }

  /** A surrogate stands for a character only together with its other half. */
  function DecodeUnicode(s: string): (r: Option<Parsed<char>>)
    ensures r.Some? ==> |r.value.rest| < |s|
  {
    match DecodeUnit(s)
    case None => None
    case Some(n) =>
      if n < 0xd800 || n >= 0xe000 then Some(Parsed(n as char, s[6..]))
      else
        match DecodeUnit(s[6..])
        case None => None
        case Some(m) =>
          if n < 0xdc00 && 0xdc00 <= m < 0xe000 then
            Some(Parsed((0x1_0000 + (n - 0xd800) * 0x400 + (m - 0xdc00)) as char, s[12..]))
          else None
  }

  function DecodeChar(s: string): (r: Option<Parsed<char>>)
    ensures r.Some? ==> |r.value.rest| < |s|
  {
    if s == "" || s[0] as int < 0x20 then None
    else if s[0] != '\\' then Some(Parsed(s[0], s[1..]))
    else if |s| < 2 then None
    else if s[1] == 'u' then DecodeUnicode(s)
    else if s[1] in "\"\\/" then Some(Parsed(s[1], s[2..]))
    else if s[1] == 'n' then Some(Parsed('\n', s[2..]))
    else if s[1] == 'r' then Some(Parsed('\r', s[2..]))
    else if s[1] == 't' then Some(Parsed('\t', s[2..]))
    else if s[1] == 'f' then Some(Parsed(0x0c as char, s[2..]))
    else if s[1] == 'b' then Some(Parsed(0x08 as char, s[2..]))
    else None
  }

  /** The characters up to the closing quote. */
  function DecodeChars(s: string): (r: Option<Parsed<string>>)
    ensures r.Some? ==> |r.value.rest| < |s|
    decreases |s|
  {
    if s != "" && s[0] == '"' then Some(Parsed("", s[1..]))
    else
      match DecodeChar(s)
      case None => None
      case Some(Parsed(c, rest)) =>
        match DecodeChars(rest)
        case None => None
        case Some(Parsed(cs, after)) => Some(Parsed([c] + cs, after))
  }

  function NumberPrefix(s: string): (n: nat)
    ensures n <= |s|
  {
    if s != "" && IsNumberChar(s[0]) then 1 + NumberPrefix(s[1..]) else 0
  }

  function Decode(text: string): (r: Option<Parsed<Value>>)
    ensures r.Some? ==> |r.value.rest| < |text|
    decreases |text|, 1
  {
    var s := SkipSpace(text);
    if s == "" then None
    else if s[0] == '"' then
      match DecodeChars(s[1..])
      case None => None
      case Some(Parsed(cs, rest)) => Some(Parsed(Str(cs), rest))
    else if s[0] == '[' then
      var t := SkipSpace(s[1..]);
      if t != "" && t[0] == ']' then Some(Parsed(Arr([]), t[1..]))
      else
        match DecodeItems(s[1..])
        case None => None
        case Some(Parsed(items, rest)) => Some(Parsed(Arr(items), rest))
    else if s[0] == '{' then
      var t := SkipSpace(s[1..]);
      if t != "" && t[0] == '}' then Some(Parsed(Obj([]), t[1..]))
      else
        match DecodeMembers(s[1..])
        case None => None
        case Some(Parsed(members, rest)) => Some(Parsed(Obj(members), rest))
    else if "null" <= s then Some(Parsed(Null, s[4..]))
    else if "true" <= s then Some(Parsed(Bool(true), s[4..]))
    else if "false" <= s then Some(Parsed(Bool(false), s[5..]))
    else if s[0] == '-' || '0' <= s[0] <= '9' then
      var n := NumberPrefix(s); Some(Parsed(Num(s[..n]), s[n..]))
    else None
  }

  function DecodeItems(s: string): (r: Option<Parsed<seq<Value>>>)
    ensures r.Some? ==> |r.value.rest| < |s|
    decreases |s|, 2
  {
    match Decode(s)
    case None => None
    case Some(Parsed(v, rest)) =>
      var t := SkipSpace(rest);
      if t == "" then None
      else if t[0] == ']' then Some(Parsed([v], t[1..]))
      else if t[0] == ',' then
        match DecodeItems(t[1..])
        case None => None
        case Some(Parsed(vs, after)) => Some(Parsed([v] + vs, after))
      else None
  }

  function DecodeMembers(text: string): (r: Option<Parsed<seq<Member>>>)
    ensures r.Some? ==> |r.value.rest| < |text|
    decreases |text|, 2
  {
    var s := SkipSpace(text);
    if s == "" || s[0] != '"' then None
    else
      match DecodeChars(s[1..])
      case None => None
      case Some(Parsed(key, rest)) =>
        var t := SkipSpace(rest);
        if t == "" || t[0] != ':' then None
        else
          match Decode(t[1..])
          case None => None
          case Some(Parsed(v, after)) =>
            var u := SkipSpace(after);
            if u == "" then None
            else if u[0] == '}' then Some(Parsed([Member(key, v)], u[1..]))
            else if u[0] == ',' then
              match DecodeMembers(u[1..])
              case None => None
              case Some(Parsed(ms, end)) => Some(Parsed([Member(key, v)] + ms, end))
            else None
  }

  /** `json.loads`: a value with nothing but space after it. */
  function Loads(text: string): Option<Value> {
    match Decode(text)
    case Some(Parsed(v, rest)) => if SkipSpace(rest) == "" then Some(v) else None
    case None => None
  }
}
