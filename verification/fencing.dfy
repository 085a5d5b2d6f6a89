/** What `json.dumps` writes, `json.loads` reads back, with or without escaped angle brackets. */
module JsonRoundTrip {
  import opened Options
  import opened Json

  lemma HexRoundTrip(n: nat)
    requires n < 16
    ensures HexValue(HexDigit(n)) == Some(n)
  {
  }

  lemma UnitAtFront(s: string, n: nat)
    requires n < 0x1_0000 && |s| >= 6 && s[..2] == "\\u" && s[2..6] == Hex4(n)
    ensures DecodeUnit(s) == Some(n)
  {
    var a := n / 16;
    var b := a / 16;
    HexRoundTrip(b / 16);
    HexRoundTrip(b % 16);
    HexRoundTrip(a % 16);
    HexRoundTrip(n % 16);
    var h := s[2..6];
    assert s[2] == h[0] && s[3] == h[1] && s[4] == h[2] && s[5] == h[3];
  }

  lemma UnitRoundTrip(n: nat, rest: string)
    requires n < 0x1_0000
    ensures var s := UnicodeEscape(n) + rest;
            DecodeUnit(s) == Some(n) && s[..2] == "\\u" && s[6..] == rest
  {
    var s := UnicodeEscape(n) + rest;
    assert s[2..6] == Hex4(n);
    assert s[6..] == rest;
    UnitAtFront(s, n);
  }

  /** A character above the basic plane is written as its two surrogates. */
  lemma PairRoundTrip(c: char, rest: string)
    requires c as int >= 0x1_0000
    ensures DecodeUnicode(EncodeChar(c, false) + rest) == Some(Parsed(c, rest))
  {
    var n := c as int - 0x1_0000;
    var hi, lo := 0xd800 + n / 0x400, 0xdc00 + n % 0x400;
    var tail := UnicodeEscape(lo) + rest;
    var s := EncodeChar(c, false) + rest;
    assert s == UnicodeEscape(hi) + tail;
    UnitRoundTrip(hi, tail);
    UnitRoundTrip(lo, rest);
    assert s[12..] == s[6..][6..];
  }

  lemma CharRoundTrip(c: char, fenced: bool, rest: string)
    ensures DecodeChar(EncodeChar(c, fenced) + rest) == Some(Parsed(c, rest))
    ensures EncodeChar(c, fenced) != "" && EncodeChar(c, fenced)[0] != '"'
  {
    var n, e := c as int, EncodeChar(c, fenced);
    var s := e + rest;
    if n >= 0x1_0000 {
      PairRoundTrip(c, rest);
      assert s[1] == 'u';
    } else if e == UnicodeEscape(n) {
      UnitRoundTrip(n, rest);
      assert s[1] == 'u';
    } else if e == [c] {
      assert s[1..] == rest;
    } else {
      assert s[2..] == rest;
    }
  }

  lemma CharsStep(text: string, c: char, tail: string, cs: string, rest: string)
    requires text != "" && text[0] != '"' && DecodeChar(text) == Some(Parsed(c, tail))
    requires DecodeChars(tail) == Some(Parsed(cs, rest))
    ensures DecodeChars(text) == Some(Parsed([c] + cs, rest))
  {
  }

  lemma {:induction false} CharsRoundTrip(s: string, fenced: bool, quoted: string)
    requires quoted != "" && quoted[0] == '"'
    ensures DecodeChars(EncodeChars(s, fenced) + quoted) == Some(Parsed(s, quoted[1..]))
  {
    if s == "" {
      assert EncodeChars(s, fenced) + quoted == quoted;
    } else {
      var tail := EncodeChars(s[1..], fenced) + quoted;
      assert EncodeChars(s, fenced) + quoted == EncodeChar(s[0], fenced) + tail;
      CharRoundTrip(s[0], fenced, tail);
      CharsRoundTrip(s[1..], fenced, quoted);
      CharsStep(EncodeChar(s[0], fenced) + tail, s[0], tail, s[1..], quoted[1..]);
      assert [s[0]] + s[1..] == s;
    }
  }

  lemma StringText(chars: string, rest: string)
    ensures var text := "\"" + (chars + "\"") + rest;
            text[0] == '"' && text[1..] == chars + ("\"" + rest)
  {
    var text := "\"" + (chars + "\"") + rest;
    assert text == "\"" + (chars + ("\"" + rest));
  }

  lemma StringRoundTrip(s: string, fenced: bool, rest: string)
    ensures var text := EncodeString(s, fenced) + rest;
            text[0] == '"' && DecodeChars(text[1..]) == Some(Parsed(s, rest))
  {
    var quoted := "\"" + rest;
    CharsRoundTrip(s, fenced, quoted);
    StringText(EncodeChars(s, fenced), rest);
    assert quoted[1..] == rest;
  }

  /** What a value starts with: no space, and no closing bracket. */
  lemma StartsAValue(v: Value, fenced: bool)
    requires Valid(v)
    ensures Encode(v, fenced) != "" && Encode(v, fenced)[0] !in " \t\n\r]}"
  {
  }

  lemma {:induction false} TokenIsWhole(token: string, rest: string)
    requires forall i | 0 <= i < |token| :: IsNumberChar(token[i])
    requires rest == "" || !IsNumberChar(rest[0])
    ensures NumberPrefix(token + rest) == |token|
  {
    if token == "" {
      assert token + rest == rest;
    } else {
      assert (token + rest)[1..] == token[1..] + rest;
      TokenIsWhole(token[1..], rest);
    }
  }

  lemma SpaceIsSkipped(text: string)
    ensures SkipSpace(" " + text) == SkipSpace(text)
  {
    assert (" " + text)[1..] == text;
  }

  lemma CommaIsPassed(tail: string)
    ensures var end := ", " + tail; SkipSpace(end) == end && end[0] == ',' && end[1..] == " " + tail
  {
  }

  lemma DecodeAfterSpace(text: string)
    ensures Decode(" " + text) == Decode(text)
  {
    SpaceIsSkipped(text);
  }

  lemma ItemsAfterSpace(text: string)
    ensures DecodeItems(" " + text) == DecodeItems(text)
  {
    DecodeAfterSpace(text);
  }

  lemma MembersAfterSpace(text: string)
    ensures DecodeMembers(" " + text) == DecodeMembers(text)
  {
    SpaceIsSkipped(text);
  }

  lemma BracketStep(open: char, body: string)
    requires (open == '[' || open == '{') && SkipSpace(body) == body && body != "" && body[0] !in "]}"
    ensures var text := [open] + body;
            Decode(text) ==
            if open == '[' then
              match DecodeItems(body)
              case None => None
              case Some(Parsed(items, rest)) => Some(Parsed(Arr(items), rest))
            else
              match DecodeMembers(body)
              case None => None
              case Some(Parsed(members, rest)) => Some(Parsed(Obj(members), rest))
  {
    var text := [open] + body;
    assert SkipSpace(text) == text && text[1..] == body;
  }

  lemma WordStep(v: Value, word: string, rest: string)
    requires (v == Null && word == "null") || (v == Bool(true) && word == "true")
             || (v == Bool(false) && word == "false")
    ensures Decode(word + rest) == Some(Parsed(v, rest))
  {
    var text := word + rest;
    assert text[|word|..] == rest && text[..|word|] == word;
    assert SkipSpace(text) == text;
    assert text[0] == word[0];
  }

  lemma NotAWord(text: string)
    requires text != "" && text[0] !in "ntf"
    ensures !("null" <= text) && !("true" <= text) && !("false" <= text)
  {
    assert "null"[0] == 'n' && "true"[0] == 't' && "false"[0] == 'f';
  }

  lemma NumberStep(text: string)
    requires text != "" && (text[0] == '-' || '0' <= text[0] <= '9')
    ensures var n := NumberPrefix(text); Decode(text) == Some(Parsed(Num(text[..n]), text[n..]))
  {
    NotAWord(text);
    assert SkipSpace(text) == text;
  }

  lemma NumberRoundTrip(token: string, rest: string)
    requires IsToken(token) && (rest == "" || !IsNumberChar(rest[0]))
    ensures Decode(token + rest) == Some(Parsed(Num(token), rest))
  {
    var text := token + rest;
    TokenIsWhole(token, rest);
    NumberStep(text);
    assert text[..|token|] == token && text[|token|..] == rest;
  }

  lemma EmptyStep(open: char, close: char, rest: string)
    requires (open == '[' && close == ']') || (open == '{' && close == '}')
    ensures Decode([open, close] + rest) == Some(Parsed(if open == '[' then Arr([]) else Obj([]), rest))
  {
    var text := [open, close] + rest;
    assert SkipSpace(text) == text && text[1..] == [close] + rest;
    assert SkipSpace(text[1..]) == text[1..] && text[1..][1..] == rest;
  }

  lemma QuoteStep(text: string, s: string, rest: string)
    requires text != "" && text[0] == '"' && DecodeChars(text[1..]) == Some(Parsed(s, rest))
    ensures Decode(text) == Some(Parsed(Str(s), rest))
  {
  }

  lemma ArrayStep(body: string, items: seq<Value>, rest: string)
    requires DecodeItems(body) == Some(Parsed(items, rest))
    requires SkipSpace(body) == body && body != "" && body[0] !in "]}"
    ensures Decode("[" + body) == Some(Parsed(Arr(items), rest))
  {
    BracketStep('[', body);
  }

  lemma ObjectStep(body: string, members: seq<Member>, rest: string)
    requires DecodeMembers(body) == Some(Parsed(members, rest))
    requires SkipSpace(body) == body && body != "" && body[0] !in "]}"
    ensures Decode("{" + body) == Some(Parsed(Obj(members), rest))
  {
    BracketStep('{', body);
  }

  /** A value is read back as it was written, whatever follows it. */
  lemma {:induction false} ValueRoundTrip(v: Value, fenced: bool, rest: string)
    requires Valid(v) && (rest == "" || !IsNumberChar(rest[0]))
    ensures Decode(Encode(v, fenced) + rest) == Some(Parsed(v, rest))
    decreases v, 3
  {
    if v.Arr? && v.items != [] {
      ArrayRoundTrip(v, fenced, rest);
    } else if v.Obj? && v.members != [] {
      ObjectRoundTrip(v, fenced, rest);
    } else {
      ScalarRoundTrip(v, fenced, rest);
    }
  }

  lemma ScalarRoundTrip(v: Value, fenced: bool, rest: string)
    requires Valid(v) && (rest == "" || !IsNumberChar(rest[0]))
    requires (v.Arr? ==> v.items == []) && (v.Obj? ==> v.members == [])
    ensures Decode(Encode(v, fenced) + rest) == Some(Parsed(v, rest))
  {
    match v
    case Null => WordStep(v, "null", rest);
    case Bool(b) => WordStep(v, if b then "true" else "false", rest);
    case Num(token) => NumberRoundTrip(token, rest);
    case Str(s) =>
      StringRoundTrip(s, fenced, rest);
      QuoteStep(EncodeString(s, fenced) + rest, s, rest);
    case Arr(_) => EmptyStep('[', ']', rest);
    case Obj(_) => EmptyStep('{', '}', rest);
  }

  lemma ArrayText(items: seq<Value>, fenced: bool, rest: string)
    requires items != []
    ensures Encode(Arr(items), fenced) + rest == "[" + (EncodeItems(items, fenced) + rest)
  {
  }

  lemma {:induction false} ArrayRoundTrip(v: Value, fenced: bool, rest: string)
    requires Valid(v) && v.Arr? && v.items != []
    ensures Decode(Encode(v, fenced) + rest) == Some(Parsed(v, rest))
    decreases v, 2
  {
    ItemsRoundTrip(v.items, fenced, rest);
    ArrayStep(EncodeItems(v.items, fenced) + rest, v.items, rest);
    ArrayText(v.items, fenced, rest);
  }

  lemma ObjectText(members: seq<Member>, fenced: bool, rest: string)
    requires members != []
    ensures Encode(Obj(members), fenced) + rest == "{" + (EncodeMembers(members, fenced) + rest)
  {
  }

  lemma {:induction false} ObjectRoundTrip(v: Value, fenced: bool, rest: string)
    requires Valid(v) && v.Obj? && v.members != []
    ensures Decode(Encode(v, fenced) + rest) == Some(Parsed(v, rest))
    decreases v, 2
  {
    MembersRoundTrip(v.members, fenced, rest);
    ObjectStep(EncodeMembers(v.members, fenced) + rest, v.members, rest);
    ObjectText(v.members, fenced, rest);
  }

  /** The reader passes the closing bracket, or the separator and the space after it. */
  lemma ItemStep(text: string, v: Value, end: string)
    requires Decode(text) == Some(Parsed(v, end)) && SkipSpace(end) == end && end != ""
    ensures DecodeItems(text) ==
      if end[0] == ']' then Some(Parsed([v], end[1..]))
      else if end[0] != ',' then None
      else
        match DecodeItems(end[1..])
        case None => None
        case Some(Parsed(vs, rest)) => Some(Parsed([v] + vs, rest))
  {
  }

  lemma LastItem(text: string, v: Value, rest: string)
    requires Decode(text) == Some(Parsed(v, "]" + rest))
    ensures DecodeItems(text) == Some(Parsed([v], rest))
  {
    var end := "]" + rest;
    assert SkipSpace(end) == end && end[1..] == rest;
    ItemStep(text, v, end);
  }

  lemma NextItem(text: string, v: Value, tail: string, vs: seq<Value>, rest: string)
    requires Decode(text) == Some(Parsed(v, ", " + tail))
    requires DecodeItems(tail) == Some(Parsed(vs, rest))
    ensures DecodeItems(text) == Some(Parsed([v] + vs, rest))
  {
    var end := ", " + tail;
    CommaIsPassed(tail);
    ItemsAfterSpace(tail);
    ItemStep(text, v, end);
  }

  lemma ItemsText(items: seq<Value>, fenced: bool, rest: string)
    requires items != [] && Valid(items[0])
    ensures var text := EncodeItems(items, fenced) + rest;
            var end := if |items| == 1 then "]" + rest else ", " + (EncodeItems(items[1..], fenced) + rest);
            text == Encode(items[0], fenced) + end && text[0] !in " \t\n\r]}"
  {
    StartsAValue(items[0], fenced);
  }

  lemma {:induction false} ItemsRoundTrip(items: seq<Value>, fenced: bool, rest: string)
    requires items != [] && forall i | 0 <= i < |items| :: Valid(items[i])
    ensures var text := EncodeItems(items, fenced) + rest;
            && DecodeItems(text) == Some(Parsed(items, rest))
            && SkipSpace(text) == text && text != "" && text[0] !in "]}"
    decreases items, 0
  {
    var text := EncodeItems(items, fenced) + rest;
    ItemsText(items, fenced, rest);
    if |items| == 1 {
      ValueRoundTrip(items[0], fenced, "]" + rest);
      LastItem(text, items[0], rest);
      assert items == [items[0]];
    } else {
      var tail := EncodeItems(items[1..], fenced) + rest;
      ValueRoundTrip(items[0], fenced, ", " + tail);
      ItemsRoundTrip(items[1..], fenced, rest);
      NextItem(text, items[0], tail, items[1..], rest);
      assert items == [items[0]] + items[1..];
    }
  }

  lemma KeyStep(text: string, key: string, value: string, v: Value, end: string)
    requires text != "" && text[0] == '"' && DecodeChars(text[1..]) == Some(Parsed(key, ": " + value))
    requires Decode(value) == Some(Parsed(v, end))
    requires SkipSpace(end) == end && end != ""
    ensures SkipSpace(text) == text
    ensures DecodeMembers(text) ==
      if end[0] == '}' then Some(Parsed([Member(key, v)], end[1..]))
      else if end[0] != ',' then None
      else
        match DecodeMembers(end[1..])
        case None => None
        case Some(Parsed(ms, rest)) => Some(Parsed([Member(key, v)] + ms, rest))
  {
    var t := ": " + value;
    assert SkipSpace(t) == t && t[1..] == " " + value;
    DecodeAfterSpace(value);
  }

  lemma LastMember(text: string, m: Member, value: string, rest: string)
    requires text != "" && text[0] == '"' && DecodeChars(text[1..]) == Some(Parsed(m.key, ": " + value))
    requires Decode(value) == Some(Parsed(m.value, "}" + rest))
    ensures SkipSpace(text) == text && DecodeMembers(text) == Some(Parsed([m], rest))
  {
    var end := "}" + rest;
    assert SkipSpace(end) == end && end[1..] == rest;
    KeyStep(text, m.key, value, m.value, end);
  }

  lemma NextMember(text: string, m: Member, value: string, tail: string, ms: seq<Member>, rest: string)
    requires text != "" && text[0] == '"' && DecodeChars(text[1..]) == Some(Parsed(m.key, ": " + value))
    requires Decode(value) == Some(Parsed(m.value, ", " + tail))
    requires DecodeMembers(tail) == Some(Parsed(ms, rest))
    ensures SkipSpace(text) == text && DecodeMembers(text) == Some(Parsed([m] + ms, rest))
  {
    var end := ", " + tail;
    CommaIsPassed(tail);
    MembersAfterSpace(tail);
    KeyStep(text, m.key, value, m.value, end);
  }

  lemma MembersText(members: seq<Member>, fenced: bool, rest: string)
    requires members != []
    ensures var m, text := members[0], EncodeMembers(members, fenced) + rest;
            var end := if |members| == 1 then "}" + rest else ", " + (EncodeMembers(members[1..], fenced) + rest);
            && text == EncodeString(m.key, fenced) + (": " + (Encode(m.value, fenced) + end))
            && text[0] == '"'
  {
  }

  lemma {:induction false} MemberRoundTrip(m: Member, fenced: bool, rest: string)
    requires Valid(m.value)
    ensures var text := EncodeMembers([m], fenced) + rest;
            DecodeMembers(text) == Some(Parsed([m], rest)) && SkipSpace(text) == text && text[0] == '"'
    decreases [m], 0
  {
    var end := "}" + rest;
    var value := Encode(m.value, fenced) + end;
    MembersText([m], fenced, rest);
    StringRoundTrip(m.key, fenced, ": " + value);
    ValueRoundTrip(m.value, fenced, end);
    LastMember(EncodeMembers([m], fenced) + rest, m, value, rest);
  }

  lemma {:induction false} MembersRoundTrip(members: seq<Member>, fenced: bool, rest: string)
    requires members != [] && forall i | 0 <= i < |members| :: Valid(members[i].value)
    ensures var text := EncodeMembers(members, fenced) + rest;
            && DecodeMembers(text) == Some(Parsed(members, rest))
            && SkipSpace(text) == text && text != "" && text[0] !in "]}"
    decreases members, 1
  {
    var m := members[0];
    if |members| == 1 {
      assert members == [m];
      MemberRoundTrip(m, fenced, rest);
    } else {
      var tail := EncodeMembers(members[1..], fenced) + rest;
      var value := Encode(m.value, fenced) + (", " + tail);
      MembersText(members, fenced, rest);
      StringRoundTrip(m.key, fenced, ": " + value);
      ValueRoundTrip(m.value, fenced, ", " + tail);
      MembersRoundTrip(members[1..], fenced, rest);
      NextMember(EncodeMembers(members, fenced) + rest, m, value, tail, members[1..], rest);
      assert members == [m] + members[1..];
    }
  }

  /** The escapes of section 7 of RFC 8259 that `json.dumps` uses. */
  lemma EscapesAre()
    ensures EncodeChar(0x22 as char, false) == ['\\', '"'] && EncodeChar(0x5c as char, false) == ['\\', '\\']
    ensures EncodeChar(0x0a as char, false) == ['\\', 'n'] && EncodeChar(0x0d as char, false) == ['\\', 'r']
    ensures EncodeChar(0x09 as char, false) == ['\\', 't'] && EncodeChar(0x0c as char, false) == ['\\', 'f']
    ensures EncodeChar(0x08 as char, false) == ['\\', 'b']
    ensures forall c: char | 0x20 <= c as int <= 0x7e && c as int != 0x22 && c as int != 0x5c ::
              EncodeChar(c, false) == [c]
  {
  }

  /** The four hexadecimal digits of a number after the escape's two characters. */
  ghost predicate IsHexEscape(e: string, n: nat) {
    var digits := "0123456789abcdef";
    && n < 0x1_0000
    && e == ['\\', 'u', digits[n / 16 / 16 / 16], digits[n / 16 / 16 % 16], digits[n / 16 % 16], digits[n % 16]]
  }

  lemma DigitIs(d: nat)
    requires d < 16
    ensures HexDigit(d) == "0123456789abcdef"[d]
  {
  }

  lemma UnicodeEscapeIs(n: nat)
    requires n < 0x1_0000
    ensures IsHexEscape(UnicodeEscape(n), n)
  {
    DigitIs(n / 16 / 16 / 16);
    DigitIs(n / 16 / 16 % 16);
    DigitIs(n / 16 % 16);
    DigitIs(n % 16);
  }

  /** Any other character of the basic plane is written as its four hexadecimal digits. */
  lemma HexEscapesAre(c: char)
    requires c as int < 0x20 || 0x7e < c as int < 0x1_0000
    requires c as int !in {0x08, 0x09, 0x0a, 0x0c, 0x0d}
    ensures IsHexEscape(EncodeChar(c, false), c as int)
  {
    UnicodeEscapeIs(c as int);
  }

  lemma EncodedAboveBasicPlane(c: char, n: nat)
    requires c as int == 0x1_0000 + n
    ensures 0xd800 + n / 0x400 < 0xdc00 && 0xdc00 + n % 0x400 < 0xe000
    ensures EncodeChar(c, false) == UnicodeEscape(0xd800 + n / 0x400) + UnicodeEscape(0xdc00 + n % 0x400)
  {
  }

  /** And one above it as those of the two surrogates that stand for it. */
  lemma SurrogatesAre(c: char)
    returns (high: nat, low: nat, first: string, second: string)
    requires c as int >= 0x1_0000
    ensures 0xd800 <= high < 0xdc00 <= low < 0xe000
    ensures c as int == 0x1_0000 + (high - 0xd800) * 0x400 + (low - 0xdc00)
    ensures EncodeChar(c, false) == first + second && IsHexEscape(first, high) && IsHexEscape(second, low)
  {
    var n := c as int - 0x1_0000;
    high, low := 0xd800 + n / 0x400, 0xdc00 + n % 0x400;
    EncodedAboveBasicPlane(c, n);
    first, second := UnicodeEscape(high), UnicodeEscape(low);
    UnicodeEscapeIs(high);
    UnicodeEscapeIs(low);
  }

  /** A string is its characters' text in quotes. */
  lemma StringsAre(c: char, s: string, fenced: bool)
    ensures EncodeString("", fenced) == ['"', '"'] && EncodeString(s, fenced)[0] == '"'
    ensures EncodeString([c] + s, fenced) == ['"'] + EncodeChar(c, fenced) + EncodeString(s, fenced)[1..]
  {
    assert ([c] + s)[1..] == s;
  }

  /** How plain values are written. */
  lemma PlainValuesAre(token: string)
    ensures Encode(Null, false) == "null"
    ensures Encode(Bool(true), false) == "true" && Encode(Bool(false), false) == "false"
    ensures Encode(Num(token), false) == token
    ensures Encode(Arr([]), false) == "[]" && Encode(Obj([]), false) == "{}"
  {
  }

  /** How arrays are written, with the default separators: one item, or an item before the items of another array. */
  lemma ArraysAre(v: Value, items: seq<Value>)
    ensures Encode(Arr([v]), false) == "[" + (Encode(v, false) + "]")
    ensures items != [] ==>
              && Encode(Arr(items), false)[0] == '['
              && Encode(Arr([v] + items), false)
                 == "[" + (Encode(v, false) + (", " + Encode(Arr(items), false)[1..]))
  {
    assert ([v] + items)[1..] == items;
    assert EncodeItems([v], false) == Encode(v, false) + "]";
  }

  /** And objects. */
  lemma ObjectsAre(m: Member, members: seq<Member>)
    ensures Encode(Obj([m]), false)
            == "{" + (EncodeString(m.key, false) + (": " + (Encode(m.value, false) + "}")))
    ensures members != [] ==>
              && Encode(Obj(members), false)[0] == '{'
              && Encode(Obj([m] + members), false)
                 == "{" + (EncodeString(m.key, false)
                    + (": " + (Encode(m.value, false) + (", " + Encode(Obj(members), false)[1..]))))
  {
    assert ([m] + members)[1..] == members;
    assert EncodeMembers([m], false) == EncodeString(m.key, false) + (": " + (Encode(m.value, false) + "}"));
  }

  lemma LoadsDumps(v: Value, fenced: bool)
    requires Valid(v)
    ensures Loads(Encode(v, fenced)) == Some(v)
  {
    ValueRoundTrip(v, fenced, "");
    assert Encode(v, fenced) + "" == Encode(v, fenced);
  }
}

/** The fence around what the judges must treat as data (src/agents/judge.py). */
module Fencing {
  import opened Options
  import opened Json
  import opened JsonRoundTrip

  /** `text.replace(c, sub)`. */
  function Replace(text: string, c: char, sub: string): string {
    if text == "" then "" else (if text[0] == c then sub else [text[0]]) + Replace(text[1..], c, sub)
  }

  /** `.replace("<", "\\u003c").replace(">", "\\u003e")`. */
  function Escape(text: string): string {
    Replace(Replace(text, '<', "\\u003c"), '>', "\\u003e")
  }

  function Body(payload: Value): string {
    Escape(Encode(payload, false))
  }

  /** `_fence`. */
  function Fence(tag: string, payload: Value): string {
    "<" + tag + ">\n" + Body(payload) + "\n</" + tag + ">"
  }

  lemma {:induction false} ReplaceConcat(a: string, b: string, c: char, sub: string)
    ensures Replace(a + b, c, sub) == Replace(a, c, sub) + Replace(b, c, sub)
  {
    if a == "" {
      assert a + b == b;
    } else {
      assert (a + b)[1..] == a[1..] + b;
      ReplaceConcat(a[1..], b, c, sub);
    }
  }

  lemma EscapeConcat(a: string, b: string)
    ensures Escape(a + b) == Escape(a) + Escape(b)
  {
    ReplaceConcat(a, b, '<', "\\u003c");
    ReplaceConcat(Replace(a, '<', "\\u003c"), Replace(b, '<', "\\u003c"), '>', "\\u003e");
  }

  predicate AngleFree(s: string) {
    '<' !in s && '>' !in s
  }

  lemma {:induction false} ReplaceNothing(s: string, c: char, sub: string)
    requires c !in s
    ensures Replace(s, c, sub) == s
  {
    if s != "" {
      ReplaceNothing(s[1..], c, sub);
    }
  }

  lemma EscapeNothing(s: string)
    requires AngleFree(s)
    ensures Escape(s) == s
  {
    ReplaceNothing(s, '<', "\\u003c");
    ReplaceNothing(s, '>', "\\u003e");
  }

  lemma {:induction false} ReplaceRemoves(s: string, c: char, sub: string, d: char)
    requires c !in sub && d !in sub
    ensures c !in Replace(s, c, sub)
    ensures d !in s ==> d !in Replace(s, c, sub)
  {
    if s != "" {
      ReplaceRemoves(s[1..], c, sub, d);
    }
  }

  /** Whatever is escaped, no angle bracket is left in it. */
  lemma EscapedIsAngleFree(s: string)
    ensures AngleFree(Escape(s))
  {
    ReplaceRemoves(s, '<', "\\u003c", '>');
    ReplaceRemoves(Replace(s, '<', "\\u003c"), '>', "\\u003e", '<');
  }

  lemma PlainChar(c: char)
    requires c != '<' && c != '>'
    ensures AngleFree(EncodeChar(c, false)) && EncodeChar(c, false) == EncodeChar(c, true)
  {
  }

  lemma EscapeChar(c: char)
    ensures Escape(EncodeChar(c, false)) == EncodeChar(c, true)
  {
    if c == '<' || c == '>' {
      EscapeAngle(c);
    } else {
      PlainChar(c);
      EscapeNothing(EncodeChar(c, false));
    }
  }

  /** The replacement text is the JSON escape of the bracket itself. */
  lemma AngleEscapes()
    ensures UnicodeEscape('<' as int) == "\\u003c" && UnicodeEscape('>' as int) == "\\u003e"
  {
    LessHex();
    GreaterHex();
  }

  lemma LessHex()
    ensures Hex4('<' as int) == "003c"
  {
  }

  lemma GreaterHex()
    ensures Hex4('>' as int) == "003e"
  {
  }

  lemma EscapeAngle(c: char)
    requires c == '<' || c == '>'
    ensures Escape([c]) == UnicodeEscape(c as int)
  {
    AngleEscapes();
    if c == '<' {
      ReplaceOne('<', "\\u003c");
      ReplaceNothing("\\u003c", '>', "\\u003e");
    } else {
      ReplaceNothing([c], '<', "\\u003c");
      ReplaceOne('>', "\\u003e");
    }
  }

  lemma ReplaceOne(c: char, sub: string)
    ensures Replace([c], c, sub) == sub
  {
    assert [c][1..] == "";
  }

  lemma {:induction false} EscapeChars(s: string)
    ensures Escape(EncodeChars(s, false)) == EncodeChars(s, true)
  {
    if s == "" {
    } else {
      EscapeConcat(EncodeChar(s[0], false), EncodeChars(s[1..], false));
      EscapeChar(s[0]);
      EscapeChars(s[1..]);
    }
  }

  lemma EscapeString(s: string)
    ensures Escape(EncodeString(s, false)) == EncodeString(s, true)
  {
    EscapeConcat("\"", EncodeChars(s, false) + "\"");
    EscapeConcat(EncodeChars(s, false), "\"");
    EscapeChars(s);
    EscapeNothing("\"");
  }

  lemma WordsAreAngleFree()
    ensures AngleFree("null") && AngleFree("true") && AngleFree("false") && AngleFree("[]") && AngleFree("{}")
  {
  }

  lemma NumberIsAngleFree(token: string)
    requires IsToken(token)
    ensures AngleFree(token)
  {
    assert !IsNumberChar('<') && !IsNumberChar('>');
  }

  lemma PlainScalar(v: Value)
    requires Valid(v) && !v.Str? && (v.Arr? ==> v.items == []) && (v.Obj? ==> v.members == [])
    ensures AngleFree(Encode(v, false)) && Encode(v, false) == Encode(v, true)
  {
    WordsAreAngleFree();
    if v.Num? {
      NumberIsAngleFree(v.token);
    }
  }

  lemma EscapeScalar(v: Value)
    requires Valid(v) && (v.Arr? ==> v.items == []) && (v.Obj? ==> v.members == [])
    ensures Escape(Encode(v, false)) == Encode(v, true)
  {
    if v.Str? {
      EscapeString(v.s);
    } else {
      PlainScalar(v);
      EscapeNothing(Encode(v, false));
    }
  }

  /** Replacing on the finished text is the same as escaping the brackets inside its strings. */
  lemma {:induction false} EscapeEncoded(v: Value)
    requires Valid(v)
    ensures Escape(Encode(v, false)) == Encode(v, true)
    decreases v, 1
  {
    if v.Arr? && v.items != [] {
      EscapeConcat("[", EncodeItems(v.items, false));
      EscapeNothing("[");
      EscapeItems(v.items);
    } else if v.Obj? && v.members != [] {
      EscapeConcat("{", EncodeMembers(v.members, false));
      EscapeNothing("{");
      EscapeMembers(v.members);
    } else {
      EscapeScalar(v);
    }
  }

  lemma {:induction false} EscapeItems(items: seq<Value>)
    requires items != [] && forall i | 0 <= i < |items| :: Valid(items[i])
    ensures Escape(EncodeItems(items, false)) == EncodeItems(items, true)
    decreases items, 0
  {
    EscapeEncoded(items[0]);
    if |items| == 1 {
      EscapeConcat(Encode(items[0], false), "]");
      EscapeNothing("]");
    } else {
      EscapeConcat(Encode(items[0], false), ", " + EncodeItems(items[1..], false));
      EscapeConcat(", ", EncodeItems(items[1..], false));
      EscapeNothing(", ");
      EscapeItems(items[1..]);
    }
  }

  lemma {:induction false} EscapeMembers(members: seq<Member>)
    requires members != [] && forall i | 0 <= i < |members| :: Valid(members[i].value)
    ensures Escape(EncodeMembers(members, false)) == EncodeMembers(members, true)
    decreases members, 0
  {
    var m := members[0];
    var end := if |members| == 1 then "}" else ", " + EncodeMembers(members[1..], false);
    EscapeConcat(EncodeString(m.key, false), ": " + (Encode(m.value, false) + end));
    EscapeConcat(": ", Encode(m.value, false) + end);
    EscapeConcat(Encode(m.value, false), end);
    EscapeString(m.key);
    EscapeEncoded(m.value);
    EscapeNothing(": ");
    if |members| == 1 {
      EscapeNothing("}");
    } else {
      EscapeConcat(", ", EncodeMembers(members[1..], false));
      EscapeNothing(", ");
      EscapeMembers(members[1..]);
    }
  }

  // ----- What the fence guarantees -----

  /** Faithful and delimiter-free: no bracket of the payload survives, and the payload reads back as it was. */
  lemma FenceIsFaithful(payload: Value)
    requires Valid(payload)
    ensures AngleFree(Body(payload))
    ensures Loads(Body(payload)) == Some(payload)
  {
    EscapedIsAngleFree(Encode(payload, false));
    EscapeEncoded(payload);
    LoadsDumps(payload, true);
  }

  function CountOf(s: string, c: char): nat {
    if s == "" then 0 else (if s[0] == c then 1 else 0) + CountOf(s[1..], c)
  }

  lemma {:induction false} CountConcat(a: string, b: string, c: char)
    ensures CountOf(a + b, c) == CountOf(a, c) + CountOf(b, c)
  {
    if a == "" {
      assert a + b == b;
    } else {
      assert (a + b)[1..] == a[1..] + b;
      CountConcat(a[1..], b, c);
    }
  }

  lemma {:induction false} CountNone(s: string, c: char)
    requires c !in s
    ensures CountOf(s, c) == 0
  {
    if s != "" {
      CountNone(s[1..], c);
    }
  }

  /**
   The only delimiters in a fenced block are its own opening and closing tag, whatever the payload says:
   it can neither close its block nor open another.
   */
  lemma OnlyItsOwnDelimiters(tag: string, payload: Value)
    requires Valid(payload) && AngleFree(tag)
    ensures CountOf(Fence(tag, payload), '<') == 2 && CountOf(Fence(tag, payload), '>') == 2
  {
    FenceIsFaithful(payload);
    var body := Body(payload);
    forall c | c == '<' || c == '>' ensures CountOf(Fence(tag, payload), c) == 2 {
      CountConcat("<" + tag + ">\n" + body + "\n</" + tag, ">", c);
      CountConcat("<" + tag + ">\n" + body + "\n</", tag, c);
      CountConcat("<" + tag + ">\n" + body, "\n</", c);
      CountConcat("<" + tag + ">\n", body, c);
      CountConcat("<" + tag, ">\n", c);
      CountConcat("<", tag, c);
      CountNone(tag, c);
      CountNone(body, c);
      CountLiterals(c);
    }
  }

  lemma CountLiterals(c: char)
    requires c == '<' || c == '>'
    ensures CountOf("<", c) + CountOf(">\n", c) + CountOf("\n</", c) + CountOf(">", c) == 2
  {
    assert "<"[1..] == "" && ">"[1..] == "" && ">\n"[1..] == "\n" && "\n"[1..] == "";
    assert "\n</"[1..] == "</" && "</"[1..] == "/" && "/"[1..] == "";
  }

  // ----- What a reader finds in the whole message -----

  function Before(text: string, c: char): (r: string)
    ensures |r| <= |text|
  {
    if text == "" || text[0] == c then "" else [text[0]] + Before(text[1..], c)
  }

  function After(text: string, c: char): (r: string)
    ensures |r| <= |text| && (c in text ==> |r| < |text|)
  {
    if text == "" then "" else if text[0] == c then text[1..] else After(text[1..], c)
  }

  lemma {:induction false} SplitAt(a: string, c: char, b: string)
    requires c !in a
    ensures Before(a + ([c] + b), c) == a && After(a + ([c] + b), c) == b
  {
    var text := a + ([c] + b);
    if a == "" {
      assert text == [c] + b;
      assert text[1..] == b;
    } else {
      assert text[1..] == a[1..] + ([c] + b);
      SplitAt(a[1..], c, b);
    }
  }

  datatype Block = Block(opening: string, payload: Option<Value>, closing: string)

  /** Reads a text as tags and what is between them, knowing nothing of how it was put together. */
  function ReadBlocks(text: string): seq<Block>
    decreases |text|
  {
    if '<' !in text then []
    else
      var opening := After(text, '<');
      var inside := After(opening, '>');
      var closing := After(inside, '<');
      [Block(Before(opening, '>'), Loads(Before(inside, '<')), Before(closing, '>'))]
      + ReadBlocks(After(closing, '>'))
  }

  lemma NewlineIsSkipped(text: string)
    ensures Decode("\n" + text) == Decode(text)
  {
    assert ("\n" + text)[1..] == text;
    assert SkipSpace("\n" + text) == SkipSpace(text);
  }

  lemma LoadsBetweenNewlines(payload: Value)
    requires Valid(payload)
    ensures Loads("\n" + (Body(payload) + "\n")) == Some(payload)
  {
    EscapeEncoded(payload);
    ValueRoundTrip(payload, true, "\n");
    NewlineIsSkipped(Body(payload) + "\n");
    assert SkipSpace("\n") == SkipSpace("\n"[1..]) == "";
  }

  lemma ReadsOneBlock(before: string, opening: string, between: string, closing: string, rest: string)
    requires '<' !in before && '>' !in opening && '<' !in between && '>' !in closing
    ensures ReadBlocks(before + ("<" + (opening + (">" + (between + ("<" + (closing + (">" + rest))))))))
            == [Block(opening, Loads(between), closing)] + ReadBlocks(rest)
  {
    var fourth := closing + (">" + rest);
    var third := between + ("<" + fourth);
    var second := opening + (">" + third);
    var text := before + ("<" + second);
    SplitAt(before, '<', second);
    SplitAt(opening, '>', third);
    SplitAt(between, '<', fourth);
    SplitAt(closing, '>', rest);
    assert text[|before|] == '<';
  }

  lemma FenceText(tag: string, body: string, rest: string)
    ensures "<" + tag + ">\n" + body + "\n</" + tag + ">" + rest
            == "<" + (tag + (">" + (("\n" + (body + "\n")) + ("<" + (("/" + tag) + (">" + rest))))))
  {
  }

  /** A reader that meets a fenced block finds that block, its payload, and then whatever comes after it. */
  lemma ReadsTheFence(before: string, tag: string, payload: Value, rest: string)
    requires Valid(payload) && AngleFree(tag) && AngleFree(before)
    ensures ReadBlocks(before + (Fence(tag, payload) + rest))
            == [Block(tag, Some(payload), "/" + tag)] + ReadBlocks(rest)
  {
    var body := Body(payload);
    EscapedIsAngleFree(Encode(payload, false));
    ReadsOneBlock(before, tag, "\n" + (body + "\n"), "/" + tag, rest);
    FenceText(tag, body, rest);
    LoadsBetweenNewlines(payload);
  }

  const INTRO: string := "Proposed action and its arguments " + "(may contain end-user text):\n"
  const BETWEEN: string := "\n\nReference context:\n"
  const OUTRO: string := "\n\nEvaluate this proposed action " + "based on the criteria."

  /** The second message of `build_judge_messages`. */
  function JudgeMessage(action: Value, context: Value): string {
    INTRO + (Fence("untrusted_data", action)
    + (BETWEEN + (Fence("reference_context", context) + OUTRO)))
  }

  lemma ReadsTwoFences(intro: string, tag: string, first: Value, between: string, tag': string, second: Value,
                       outro: string)
    requires Valid(first) && Valid(second) && AngleFree(tag) && AngleFree(tag')
    requires AngleFree(intro) && AngleFree(between) && AngleFree(outro)
    ensures ReadBlocks(intro + (Fence(tag, first) + (between + (Fence(tag', second) + outro))))
            == [Block(tag, Some(first), "/" + tag), Block(tag', Some(second), "/" + tag')]
  {
    var rest := between + (Fence(tag', second) + outro);
    ReadsTheFence(between, tag', second, outro);
    ReadsTheFence(intro, tag, first, rest);
  }

  lemma IntroIsAngleFree()
    ensures AngleFree(INTRO) && AngleFree("untrusted_data")
  {
    assert AngleFree("Proposed action and its arguments ");
    assert AngleFree("(may contain end-user text):\n");
  }

  lemma OutroIsAngleFree()
    ensures AngleFree(BETWEEN) && AngleFree(OUTRO) && AngleFree("reference_context")
  {
    assert AngleFree("\n\nEvaluate this proposed action ");
    assert AngleFree("based on the criteria.");
  }

  /**
   For every action and context, a reader of the message finds two blocks in it, the action marked as data and
   the context marked as reference, each with exactly the value that was put there.
   */
  lemma JudgesReadWhatWasFenced(action: Value, context: Value)
    requires Valid(action) && Valid(context)
    ensures ReadBlocks(JudgeMessage(action, context)) ==
            [Block("untrusted_data", Some(action), "/" + "untrusted_data"),
             Block("reference_context", Some(context), "/" + "reference_context")]
  {
    IntroIsAngleFree();
    OutroIsAngleFree();
    ReadsTwoFences(INTRO, "untrusted_data", action, BETWEEN, "reference_context", context, OUTRO);
  }
}
