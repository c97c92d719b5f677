/**
 * The part of `JSON.stringify` and `JSON.parse` that the saved quiz session goes through:
 * JSON values, their compact text (no whitespace, keys in insertion order, string escapes as
 * `JSON.stringify` writes them) and a parser for JSON text over integers.
 */
module Json {
  import opened Optional
  import Decimal

  datatype Json =
    | JNull
    | JBool(b: bool)
    | JNumber(n: int)
    | JString(s: string)
    | JArray(items: seq<Json>)
    | JObject(members: seq<Member>)

  datatype Member = Member(key: string, value: Json)

  // ---------------------------------------------------------------------------------------------
  // Stringify

  function HexDigit(d: nat): (c: char)
    requires d < 16
    ensures IsHex(c) && HexValue(c) == d
  {
    if d < 10 then ('0' as int + d) as char else ('a' as int + d - 10) as char
  }

  predicate IsHex(c: char)
  {
    '0' <= c <= '9' || 'a' <= c <= 'f' || 'A' <= c <= 'F'
  }

  function HexValue(c: char): (v: nat)
    requires IsHex(c)
    ensures v < 16
  {
    if '0' <= c <= '9' then c as int - '0' as int
    else if 'a' <= c <= 'f' then c as int - 'a' as int + 10
    else c as int - 'A' as int + 10
  }

  /** How `JSON.stringify` writes one character of a string. */
  function EscapeChar(c: char): string
  {
    if c == '"' then "\\\""
    else if c == '\\' then "\\\\"
    else if c == 8 as char then "\\b"
    else if c == '\t' then "\\t"
    else if c == '\n' then "\\n"
    else if c == 12 as char then "\\f"
    else if c == '\r' then "\\r"
    else if c < ' ' then "\\u00" + [HexDigit(c as int / 16), HexDigit(c as int % 16)]
    else [c]
  }

  function Escape(s: string): string
  {
    if s == [] then "" else EscapeChar(s[0]) + Escape(s[1..])
  }

  function Quote(s: string): string
  {
    "\"" + Escape(s) + "\""
  }

  function Stringify(j: Json): string
  {
    match j
    case JNull => "null"
    case JBool(b) => if b then "true" else "false"
    case JNumber(n) => Decimal.IntToString(n)
    case JString(s) => Quote(s)
    case JArray(items) => "[" + StringifyItems(items) + "]"
    case JObject(members) => "{" + StringifyMembers(members) + "}"
  }

  function StringifyItems(items: seq<Json>): string
  {
    if items == [] then ""
    else if |items| == 1 then Stringify(items[0])
    else Stringify(items[0]) + "," + StringifyItems(items[1..])
  }

  function StringifyMembers(members: seq<Member>): string
  {
    if members == [] then ""
    else if |members| == 1 then StringifyMember(members[0])
    else StringifyMember(members[0]) + "," + StringifyMembers(members[1..])
  }

  function StringifyMember(m: Member): string
  {
    Quote(m.key) + ":" + Stringify(m.value)
  }

  // ---------------------------------------------------------------------------------------------
  // Parse

  predicate IsWhitespace(c: char)
  {
    c == ' ' || c == '\t' || c == '\n' || c == '\r'
  }

  function SkipWs(s: string): (r: string)
    ensures |r| <= |s|
    ensures r == [] || !IsWhitespace(r[0])
  {
    if s != [] && IsWhitespace(s[0]) then SkipWs(s[1..]) else s
  }

  /** The character a one-letter escape `\x` stands for, if `x` is one. */
  function ShortEscape(e: char): Option<char>
  {
    if e == '"' then Some('"')
    else if e == '\\' then Some('\\')
    else if e == '/' then Some('/')
    else if e == 'b' then Some(8 as char)
    else if e == 'f' then Some(12 as char)
    else if e == 'n' then Some('\n')
    else if e == 'r' then Some('\r')
    else if e == 't' then Some('\t')
    else None
  }

  /** The code unit of a `\uXXXX` escape, when it denotes a character on its own (not a surrogate). */
  function UnicodeEscape(h: string): Option<char>
    requires |h| == 4
  {
    if IsHex(h[0]) && IsHex(h[1]) && IsHex(h[2]) && IsHex(h[3]) then
      var v := HexValue(h[0]) * 4096 + HexValue(h[1]) * 256 + HexValue(h[2]) * 16 + HexValue(h[3]);
      if v < 0xD800 || 0xE000 <= v then Some(v as char) else None
    else None
  }

  /** The body of a string literal after its opening quote: its characters and what follows the closing quote. */
  function ParseStringBody(s: string): (r: Option<(string, string)>)
    ensures r.Some? ==> |r.value.1| < |s|
    decreases |s|, 1
  {
    if s == [] then None
    else if s[0] == '"' then Some(("", s[1..]))
    else if s[0] == '\\' then
      if |s| < 2 then None
      else if ShortEscape(s[1]).Some? then StringBodyAfter(ShortEscape(s[1]).value, s[2..])
      else if s[1] == 'u' && |s| >= 6 && UnicodeEscape(s[2..6]).Some? then
        StringBodyAfter(UnicodeEscape(s[2..6]).value, s[6..])
      else None
    else if s[0] < ' ' then None
    else StringBodyAfter(s[0], s[1..])
  }

  function StringBodyAfter(c: char, rest: string): (r: Option<(string, string)>)
    ensures r.Some? ==> |r.value.1| < |rest|
    decreases |rest| + 1, 0
  {
    match ParseStringBody(rest)
    case None => None
    case Some((t, after)) => Some(([c] + t, after))
  }

  /** The number of decimal digits at the front of `s`. */
  function DigitSpan(s: string): (k: nat)
    ensures k <= |s| && Decimal.AllDigits(s[..k])
    ensures k < |s| ==> !Decimal.IsDigit(s[k])
  {
    if s != [] && Decimal.IsDigit(s[0]) then
      var k := 1 + DigitSpan(s[1..]);
      assert s[..k] == [s[0]] + s[1..][..k - 1];
      k
    else 0
  }

  /** An integer: an optional minus sign, then `0` or digits without a leading zero. */
  function ParseNumber(s: string): (r: Option<(Json, string)>)
    ensures r.Some? ==> |r.value.1| < |s|
  {
    var neg := s != [] && s[0] == '-';
    var t := if neg then s[1..] else s;
    var k := DigitSpan(t);
    if k == 0 || (k > 1 && t[0] == '0') then None
    else
      var v: int := Decimal.DigitsValue(t[..k]);
      Some((JNumber(if neg then -v else v), t[k..]))
  }

  /** One JSON value at the very front of `s`, and the text after it. */
  function ParseValue(s: string): (r: Option<(Json, string)>)
    ensures r.Some? ==> |r.value.1| < |s|
    decreases |s|, 1
  {
    if s == [] then None
    else if s[0] == '{' then ParseObject(s[1..])
    else if s[0] == '[' then ParseArray(s[1..])
    else if s[0] == '"' then
      match ParseStringBody(s[1..])
      case None => None
      case Some((str, rest)) => Some((JString(str), rest))
    else if |s| >= 4 && s[..4] == "null" then Some((JNull, s[4..]))
    else if |s| >= 4 && s[..4] == "true" then Some((JBool(true), s[4..]))
    else if |s| >= 5 && s[..5] == "false" then Some((JBool(false), s[5..]))
    else ParseNumber(s)
  }

  /** The rest of an array after its `[`. */
  function ParseArray(s: string): (r: Option<(Json, string)>)
    ensures r.Some? ==> |r.value.1| < |s|
    decreases |s|, 3
  {
    var t := SkipWs(s);
    if t != [] && t[0] == ']' then Some((JArray([]), t[1..]))
    else
      match ParseElements(t)
      case None => None
      case Some((items, rest)) => Some((JArray(items), rest))
  }

  /** One or more comma-separated values and the closing `]`. */
  function ParseElements(s: string): (r: Option<(seq<Json>, string)>)
    ensures r.Some? ==> |r.value.1| < |s|
    decreases |s|, 2
  {
    match ParseValue(s)
    case None => None
    case Some((v, rest)) =>
      var t := SkipWs(rest);
      if t != [] && t[0] == ']' then Some(([v], t[1..]))
      else if t != [] && t[0] == ',' then
        match ParseElements(SkipWs(t[1..]))
        case None => None
        case Some((vs, after)) => Some(([v] + vs, after))
      else None
  }

  /** The rest of an object after its `{`. */
  function ParseObject(s: string): (r: Option<(Json, string)>)
    ensures r.Some? ==> |r.value.1| < |s|
    decreases |s|, 4
  {
    var t := SkipWs(s);
    if t != [] && t[0] == '}' then Some((JObject([]), t[1..]))
    else
      match ParseMembers(t)
      case None => None
      case Some((ms, rest)) => Some((JObject(ms), rest))
  }

  /** One or more comma-separated `"key": value` pairs and the closing `}`. */
  function ParseMembers(s: string): (r: Option<(seq<Member>, string)>)
    ensures r.Some? ==> |r.value.1| < |s|
    decreases |s|, 3
  {
    match ParseMember(s)
    case None => None
    case Some((m, rest)) =>
      var t := SkipWs(rest);
      if t != [] && t[0] == '}' then Some(([m], t[1..]))
      else if t != [] && t[0] == ',' then
        match ParseMembers(SkipWs(t[1..]))
        case None => None
        case Some((ms, after)) => Some(([m] + ms, after))
      else None
  }

  /** One `"key": value` pair. */
  function ParseMember(s: string): (r: Option<(Member, string)>)
    ensures r.Some? ==> |r.value.1| < |s|
    decreases |s|, 2
  {
    if s == [] || s[0] != '"' then None
    else
      match ParseStringBody(s[1..])
      case None => None
      case Some((key, afterKey)) =>
        var t := SkipWs(afterKey);
        if t == [] || t[0] != ':' then None
        else
          match ParseValue(SkipWs(t[1..]))
          case None => None
          case Some((v, rest)) => Some((Member(key, v), rest))
  }

  /** `JSON.parse`: one value, with nothing but whitespace around it. */
  function Parse(text: string): Option<Json>
  {
    match ParseValue(SkipWs(text))
    case None => None
    case Some((v, rest)) => if SkipWs(rest) == [] then Some(v) else None
  }
}

module JsonRoundTrip {
  import opened Optional
  import Decimal
  import opened Json

  /** What may follow a value inside the text `Stringify` writes: nothing, a comma or a closing bracket. */
  predicate Delimited(rest: string)
  {
    rest == [] || rest[0] == ',' || rest[0] == ']' || rest[0] == '}'
  }

  /** The first character of a stringified value is neither whitespace nor a closing bracket. */
  lemma StringifyStart(j: Json)
    ensures var s := Stringify(j);
      s != [] && !IsWhitespace(s[0]) && s[0] != ']' && s[0] != '}' && s[0] != ','
  {
    match j
    case JNumber(n) =>
      var s := Decimal.IntToString(n);
      assert n >= 0 ==> Decimal.IsDigit(s[0]);
    case JArray(items) =>
    case JObject(members) =>
    case _ =>
  }

  lemma ItemsStart(items: seq<Json>)
    requires items != []
    ensures var s := StringifyItems(items);
      s != [] && !IsWhitespace(s[0]) && s[0] != ']'
  {
    StringifyStart(items[0]);
  }

  lemma {:induction false} EscapeCharParse(c: char, tail: string)
    ensures ParseStringBody(EscapeChar(c) + tail) == StringBodyAfter(c, tail)
  {
    var s := EscapeChar(c) + tail;
    if c == '"' || c == '\\' || c == 8 as char || c == '\t' || c == '\n' || c == 12 as char || c == '\r' {
      assert s[2..] == tail;
    } else if c < ' ' {
      var h := s[2..6];
      assert h == ['0', '0', HexDigit(c as int / 16), HexDigit(c as int % 16)];
      assert s[6..] == tail;
    } else {
      assert s[1..] == tail;
    }
  }

  /** Reading back what `Escape` wrote, up to the closing quote, gives the original string. */
  lemma {:induction false} EscapeRoundTrip(s: string, rest: string)
    ensures ParseStringBody(Escape(s) + "\"" + rest) == Some((s, rest))
    decreases |s|
  {
    if s == [] {
      assert Escape(s) + "\"" + rest == "\"" + rest;
    } else {
      var tail := Escape(s[1..]) + "\"" + rest;
      assert Escape(s) + "\"" + rest == EscapeChar(s[0]) + tail;
      EscapeCharParse(s[0], tail);
      EscapeRoundTrip(s[1..], rest);
      assert [s[0]] + s[1..] == s;
    }
  }

  lemma {:induction false} DigitSpanOf(d: string, rest: string)
    requires Decimal.AllDigits(d)
    requires rest == [] || !Decimal.IsDigit(rest[0])
    ensures DigitSpan(d + rest) == |d|
    decreases |d|
  {
    if d != [] {
      assert (d + rest)[1..] == d[1..] + rest;
      DigitSpanOf(d[1..], rest);
    } else {
      assert d + rest == rest;
    }
  }

  /** The digits of a natural number, then a non-digit: the whole digit run is read, and it is worth the number. */
  lemma DigitsThenRest(m: nat, rest: string)
    requires rest == [] || !Decimal.IsDigit(rest[0])
    ensures var d := Decimal.NatToString(m);
      var t := d + rest;
      DigitSpan(t) == |d| && t[..|d|] == d && t[|d|..] == rest &&
      Decimal.DigitsValue(t[..|d|]) == m && !(|d| > 1 && t[0] == '0') && t[0] != '-'
  {
    var d := Decimal.NatToString(m);
    var t := d + rest;
    DigitSpanOf(d, rest);
    assert t[..|d|] == d && t[|d|..] == rest;
    assert t[0] == d[0] && Decimal.IsDigit(d[0]);
    Decimal.DigitsValueOfNatToString(m);
  }

  /** Reading back the text `String(n)` wrote for an integer gives the integer. */
  lemma NumberRoundTrip(n: int, rest: string)
    requires rest == [] || !Decimal.IsDigit(rest[0])
    ensures ParseNumber(Decimal.IntToString(n) + rest) == Some((JNumber(n), rest))
  {
    var m: nat := if n < 0 then -n else n;
    var t := Decimal.NatToString(m) + rest;
    DigitsThenRest(m, rest);
    if n < 0 {
      var s := Decimal.IntToString(n) + rest;
      assert s == "-" + t;
      assert s[0] == '-' && s[1..] == t;
    } else {
      assert Decimal.IntToString(n) + rest == t;
    }
  }

  /** `JSON.parse` reads back what `JSON.stringify` wrote, whatever follows a value in its enclosing text. */
  lemma {:induction false} ValueRoundTrip(j: Json, rest: string)
    requires Delimited(rest)
    ensures ParseValue(Stringify(j) + rest) == Some((j, rest))
    decreases j, 2
  {
    match j
    case JArray(items) => ArrayRoundTrip(items, rest);
    case JObject(members) => ObjectRoundTrip(members, rest);
    case JString(str) => StringValueRoundTrip(str, rest);
    case JNumber(n) => NumberValueRoundTrip(n, rest);
    case _ => LiteralRoundTrip(j, rest);
  }

  lemma LiteralRoundTrip(j: Json, rest: string)
    requires j.JNull? || j.JBool?
    ensures ParseValue(Stringify(j) + rest) == Some((j, rest))
  {
    var s := Stringify(j) + rest;
    if j.JNull? {
      assert s[..4] == "null" && s[4..] == rest;
    } else if j.b {
      assert s[..4] == "true" && s[4..] == rest;
    } else {
      assert s[..4] != "null" && s[..4] != "true";
      assert s[..5] == "false" && s[5..] == rest;
    }
  }

  lemma StringValueRoundTrip(str: string, rest: string)
    ensures ParseValue(Stringify(JString(str)) + rest) == Some((JString(str), rest))
  {
    var s := Stringify(JString(str)) + rest;
    assert s[0] == '"';
    assert s[1..] == Escape(str) + "\"" + rest;
    EscapeRoundTrip(str, rest);
  }

  lemma NumberValueRoundTrip(n: int, rest: string)
    requires Delimited(rest)
    ensures ParseValue(Stringify(JNumber(n)) + rest) == Some((JNumber(n), rest))
  {
    var d := Decimal.IntToString(n);
    var s := d + rest;
    assert n >= 0 ==> Decimal.IsDigit(d[0]);
    assert s[0] == d[0];
    assert s[0] != '{' && s[0] != '[' && s[0] != '"';
    assert |s| >= 4 ==> s[..4] != "null" && s[..4] != "true";
    assert |s| >= 5 ==> s[..5] != "false";
    NumberRoundTrip(n, rest);
  }

  lemma {:induction false} ArrayRoundTrip(items: seq<Json>, rest: string)
    ensures ParseValue(Stringify(JArray(items)) + rest) == Some((JArray(items), rest))
    decreases items, 1
  {
    var s := Stringify(JArray(items)) + rest;
    var t := StringifyItems(items) + "]" + rest;
    assert s[0] == '[' && s[1..] == t;
    if items == [] {
      assert SkipWs(t) == t;
      assert t[1..] == rest;
    } else {
      ItemsStart(items);
      assert SkipWs(t) == t;
      ItemsRoundTrip(items, rest);
    }
  }

  lemma {:induction false} ObjectRoundTrip(members: seq<Member>, rest: string)
    ensures ParseValue(Stringify(JObject(members)) + rest) == Some((JObject(members), rest))
    decreases members, 2
  {
    var s := Stringify(JObject(members)) + rest;
    var t := StringifyMembers(members) + "}" + rest;
    assert s[0] == '{' && s[1..] == t;
    if members == [] {
      assert SkipWs(t) == t;
      assert t[1..] == rest;
    } else {
      MembersStart(members);
      assert SkipWs(t) == t;
      MembersRoundTrip(members, rest);
    }
  }

  lemma MembersStart(members: seq<Member>)
    requires members != []
    ensures var s := StringifyMembers(members); s != [] && s[0] == '"'
  {
    var m := members[0];
    assert StringifyMember(m) == "\"" + (Escape(m.key) + "\"" + ":" + Stringify(m.value));
  }

  /** One step of `ParseElements` once its first value has been read. */
  lemma ElementsStep(s: string, v: Json, after: string)
    requires ParseValue(s) == Some((v, after))
    requires after != [] && (after[0] == ']' || after[0] == ',')
    ensures after[0] == ']' ==> ParseElements(s) == Some(([v], after[1..]))
    ensures after[0] == ',' ==>
      (ParseElements(s) ==
        match ParseElements(SkipWs(after[1..]))
        case None => None
        case Some((vs, a)) => Some(([v] + vs, a)))
  {
    assert SkipWs(after) == after;
  }

  /** `ParseMembers` on a last member followed by the closing brace. */
  lemma MembersStepLast(s: string, m: Member, after: string)
    requires ParseMember(s) == Some((m, after))
    requires after != [] && after[0] == '}'
    ensures ParseMembers(s) == Some(([m], after[1..]))
  {
    assert SkipWs(after) == after;
  }

  /** `ParseMembers` on a member followed by a comma and further members. */
  lemma MembersStepMore(s: string, m: Member, after: string, ms: seq<Member>, rest: string)
    requires ParseMember(s) == Some((m, after))
    requires after != [] && after[0] == ','
    requires ParseMembers(SkipWs(after[1..])) == Some((ms, rest))
    ensures ParseMembers(s) == Some(([m] + ms, rest))
  {
    assert SkipWs(after) == after;
  }

  lemma {:induction false} ItemsRoundTrip(items: seq<Json>, rest: string)
    requires items != []
    ensures ParseElements(StringifyItems(items) + "]" + rest) == Some((items, rest))
    decreases items, 0
  {
    var s := StringifyItems(items) + "]" + rest;
    if |items| == 1 {
      var after := "]" + rest;
      assert s == Stringify(items[0]) + after;
      ValueRoundTrip(items[0], after);
      ElementsStep(s, items[0], after);
      assert after[1..] == rest;
      assert [items[0]] == items;
    } else {
      var more := StringifyItems(items[1..]) + "]" + rest;
      var after := "," + more;
      assert s == Stringify(items[0]) + after;
      ValueRoundTrip(items[0], after);
      ElementsStep(s, items[0], after);
      assert after[1..] == more;
      ItemsStart(items[1..]);
      assert SkipWs(more) == more;
      ItemsRoundTrip(items[1..], rest);
      assert [items[0]] + items[1..] == items;
    }
  }

  /** `ParseMember` once the key and the value have been read. */
  lemma MemberStep(s: string, key: string, afterKey: string, v: Json, after: string)
    requires s != [] && s[0] == '"'
    requires ParseStringBody(s[1..]) == Some((key, afterKey))
    requires afterKey != [] && afterKey[0] == ':'
    requires ParseValue(SkipWs(afterKey[1..])) == Some((v, after))
    ensures ParseMember(s) == Some((Member(key, v), after))
  {
    assert SkipWs(afterKey) == afterKey;
  }

  /** A written member followed by more text: a quote, the escaped key, a quote, and the colon with the rest. */
  lemma MemberText(m: Member, after: string)
    ensures var s := StringifyMember(m) + after;
      s != [] && s[0] == '"' && s[1..] == Escape(m.key) + "\"" + (":" + (Stringify(m.value) + after))
  {
    var e, v := Escape(m.key), Stringify(m.value);
    assert StringifyMember(m) + after == "\"" + (e + "\"" + (":" + (v + after)));
  }

  lemma {:induction false} MemberRoundTrip(m: Member, after: string)
    requires Delimited(after)
    ensures ParseMember(StringifyMember(m) + after) == Some((m, after))
    decreases m, 0
  {
    var value := Stringify(m.value) + after;
    var afterKey := ":" + value;
    var s := StringifyMember(m) + after;
    MemberText(m, after);
    EscapeRoundTrip(m.key, afterKey);
    assert afterKey[1..] == value;
    StringifyStart(m.value);
    assert SkipWs(value) == value;
    ValueRoundTrip(m.value, after);
    MemberStep(s, m.key, afterKey, m.value, after);
  }

  lemma MembersText(members: seq<Member>, rest: string)
    requires |members| > 1
    ensures StringifyMembers(members) + "}" + rest
         == StringifyMember(members[0]) + ("," + (StringifyMembers(members[1..]) + "}" + rest))
  {
    var a := StringifyMember(members[0]);
    var b := StringifyMembers(members[1..]);
    assert StringifyMembers(members) == a + "," + b;
    Regroup(a, ",", b, "}", rest);
  }

  lemma Regroup(a: string, b: string, c: string, d: string, e: string)
    ensures a + b + c + d + e == a + (b + (c + d + e))
  {
  }

  lemma {:induction false} MembersRoundTrip(members: seq<Member>, rest: string)
    requires members != []
    ensures ParseMembers(StringifyMembers(members) + "}" + rest) == Some((members, rest))
    decreases members, 1
  {
    var m := members[0];
    var s := StringifyMembers(members) + "}" + rest;
    if |members| == 1 {
      var after := "}" + rest;
      assert s == StringifyMember(m) + after;
      MemberRoundTrip(m, after);
      MembersStepLast(s, m, after);
      assert after[1..] == rest;
      assert [m] == members;
    } else {
      var next := StringifyMembers(members[1..]) + "}" + rest;
      var after := "," + next;
      MembersText(members, rest);
      MemberRoundTrip(m, after);
      assert after[1..] == next;
      MembersStart(members[1..]);
      assert SkipWs(next) == next;
      MembersRoundTrip(members[1..], rest);
      MembersStepMore(s, m, after, members[1..], rest);
      assert [m] + members[1..] == members;
    }
  }

  /** `JSON.parse(JSON.stringify(j))` gives back `j`. */
  lemma ParseStringify(j: Json)
    ensures Parse(Stringify(j)) == Some(j)
  {
    StringifyStart(j);
    assert SkipWs(Stringify(j)) == Stringify(j);
    ValueRoundTrip(j, "");
    assert Stringify(j) + "" == Stringify(j);
  }
}
