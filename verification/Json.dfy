/** JSON values as the serializers write them, and a decoder for their text (RFC 8259, sections 4 to 7). */
module Json {
  import opened Wrappers
  import opened Text

  /** A member of an object. */
  datatype Field = Field(key: string, value: Value)

  /** A JSON value; a finite number is held as the numeral it is written as. */
  datatype Value =
    | Null | Bool(b: bool) | Num(numeral: string) | Str(s: string)
    | Arr(items: seq<Value>) | Obj(fields: seq<Field>)

  // Writing, as JSON.stringify does.

  function HexDigit(n: nat): char
    requires n < 16
  {
    "0123456789abcdef"[n]
  }

  /** A character inside a quoted string. */
  function Escape(c: char): string {
    if c == '"' then "\\\"" else if c == '\\' then "\\\\"
    else if c == '\U{0008}' then "\\b" else if c == '\U{000C}' then "\\f"
    else if c == '\n' then "\\n" else if c == '\r' then "\\r" else if c == '\t' then "\\t"
    else if c < ' ' then "\\u00" + [HexDigit(c as int / 16), HexDigit(c as int % 16)]
    else [c]
  }

  function Escaped(s: string): string { if s == "" then "" else Escape(s[0]) + Escaped(s[1..]) }

  function Quote(s: string): string { "\"" + Escaped(s) + "\"" }

  function TextOf(v: Value): string {
    match v
    case Null => "null"
    case Bool(b) => if b then "true" else "false"
    case Num(numeral) => numeral
    case Str(s) => Quote(s)
    case Arr(items) => "[" + ItemsText(items) + "]"
    case Obj(fields) => "{" + FieldsText(fields) + "}"
  }

  function ItemsText(items: seq<Value>): string {
    if items == [] then "" else TextOf(items[0]) + (if |items| == 1 then "" else "," + ItemsText(items[1..]))
  }

  function FieldText(f: Field): string { Quote(f.key) + ":" + TextOf(f.value) }

  function FieldsText(fields: seq<Field>): string {
    if fields == [] then "" else FieldText(fields[0]) + (if |fields| == 1 then "" else "," + FieldsText(fields[1..]))
  }

  // Reading.

  predicate NumeralChar(c: char) { IsDigit(c) || c == '-' || c == '+' || c == '.' || c == 'e' || c == 'E' }

  function NumeralRun(s: string): (k: nat)
    ensures k <= |s|
  {
    if s == "" || !NumeralChar(s[0]) then 0 else 1 + NumeralRun(s[1..])
  }

  /** `int`: a zero, or digits without a leading zero. */
  predicate IntPart(s: string) { s != "" && AllDigits(s) && (s[0] == '0' ==> |s| == 1) }

  /** `exp` without its letter. */
  predicate ExpPart(s: string) {
    s != "" && var digits := if s[0] == '-' || s[0] == '+' then s[1..] else s; digits != "" && AllDigits(digits)
  }

  predicate Tail(s: string) {
    s == "" || ((s[0] == 'e' || s[0] == 'E') && ExpPart(s[1..]))
  }

  /** `number`: sign, integer part, fraction, exponent. */
  predicate IsNumeral(s: string) {
    (forall c <- s :: NumeralChar(c)) &&
    var unsigned := if s != "" && s[0] == '-' then s[1..] else s;
    var k := DigitRun(unsigned);
    && IntPart(unsigned[..k])
    && var rest := unsigned[k..];
       if rest != "" && rest[0] == '.' then
         var m := DigitRun(rest[1..]);
         m > 0 && Tail(rest[1..][m..])
       else Tail(rest)
  }

  predicate IsHex(c: char) { IsDigit(c) || 'a' <= c <= 'f' || 'A' <= c <= 'F' }

  function HexValue(c: char): (n: nat)
    requires IsHex(c)
    ensures n < 16
  {
    if IsDigit(c) then c as int - '0' as int else if 'a' <= c then c as int - 'a' as int + 10
        else c as int - 'A' as int + 10
  }

  /** One character of a quoted string, escaped or not, and what follows it. */
  function ReadChar(s: string): Option<(char, string)>
    requires s != ""
  {
    if s[0] != '\\' then (if s[0] < ' ' then None else Some((s[0], s[1..])))
    else if |s| < 2 then None
    else if s[1] == '"' || s[1] == '\\' || s[1] == '/' then Some((s[1], s[2..]))
    else if s[1] == 'b' then Some(('\U{0008}', s[2..]))
    else if s[1] == 'f' then Some(('\U{000C}', s[2..]))
    else if s[1] == 'n' then Some(('\n', s[2..]))
    else if s[1] == 'r' then Some(('\r', s[2..]))
    else if s[1] == 't' then Some(('\t', s[2..]))
    else if s[1] == 'u' && |s| >= 6 && IsHex(s[2]) && IsHex(s[3]) && IsHex(s[4]) && IsHex(s[5]) then
      var code := 4096 * HexValue(s[2]) + 256 * HexValue(s[3]) + 16 * HexValue(s[4]) + HexValue(s[5]);
      if 0xD800 <= code < 0xE000 then None else Some((code as char, s[6..]))
    else None
  }

  /** The rest of a quoted string, and what follows its closing quote. */
  function ReadString(s: string): (r: Option<(string, string)>)
    ensures r.Some? ==> |r.value.1| < |s|
    decreases |s|
  {
    if s == "" then None
    else if s[0] == '"' then Some(("", s[1..]))
    else
      match ReadChar(s)
      case None => None
      case Some((c, rest)) =>
        match ReadString(rest)
        case None => None
        case Some((text, after)) => Some(([c] + text, after))
  }

  function ReadValue(s: string): (r: Option<(Value, string)>)
    ensures r.Some? ==> |r.value.1| < |s|
    decreases |s|, 0
  {
    if s == "" then None
    else if s[0] == '"' then
      match ReadString(s[1..]) case None => None case Some((text, rest)) => Some((Str(text), rest))
    else if s[0] == '[' then
      if |s| > 1 && s[1] == ']' then Some((Arr([]), s[2..]))
      else match ReadItems(s[1..]) case None => None case Some((items, rest)) => Some((Arr(items), rest))
    else if s[0] == '{' then
      if |s| > 1 && s[1] == '}' then Some((Obj([]), s[2..]))
      else match ReadFields(s[1..]) case None => None case Some((fields, rest)) => Some((Obj(fields), rest))
    else if "null" <= s then Some((Null, s[4..]))
    else if "true" <= s then Some((Bool(true), s[4..]))
    else if "false" <= s then Some((Bool(false), s[5..]))
    else
      var k := NumeralRun(s);
      if IsNumeral(s[..k]) then Some((Num(s[..k]), s[k..])) else None
  }

  function ReadItems(s: string): (r: Option<(seq<Value>, string)>)
    ensures r.Some? ==> |r.value.1| < |s|
    decreases |s|, 1
  {
    match ReadValue(s)
    case None => None
    case Some((v, rest)) =>
      if rest == "" then None
      else if rest[0] == ']' then Some(([v], rest[1..]))
      else if rest[0] != ',' then None
      else match ReadItems(rest[1..]) case None => None case Some((more, after)) => Some(([v] + more, after))
  }

  function ReadFields(s: string): (r: Option<(seq<Field>, string)>)
    ensures r.Some? ==> |r.value.1| < |s|
    decreases |s|, 1
  {
    if s == "" || s[0] != '"' then None
    else
      match ReadString(s[1..])
      case None => None
      case Some((key, afterKey)) =>
        if afterKey == "" || afterKey[0] != ':' then None
        else
          match ReadValue(afterKey[1..])
          case None => None
          case Some((v, rest)) =>
            if rest == "" then None
            else if rest[0] == '}' then Some(([Field(key, v)], rest[1..]))
            else if rest[0] != ',' then None
            else
              match ReadFields(rest[1..])
              case None => None
              case Some((more, after)) => Some(([Field(key, v)] + more, after))
  }

  /** A whole text. */
  function Parse(s: string): Option<Value> {
    match ReadValue(s)
    case None => None
    case Some((v, rest)) => if rest == "" then Some(v) else None
  }

  // Reading undoes writing.

  /** Every number is written as a numeral. */
  predicate Finite(v: Value) {
    match v
    case Num(numeral) => IsNumeral(numeral)
    case Arr(items) => forall i | 0 <= i < |items| :: Finite(items[i])
    case Obj(fields) => forall i | 0 <= i < |fields| :: Finite(fields[i].value)
    case _ => true
  }

  lemma CharRoundTrip(c: char, tail: string)
    ensures ReadChar(Escape(c) + tail) == Some((c, tail)) && Escape(c)[0] != '"' && |Escape(c)| >= 1
  {
    var s := Escape(c) + tail;
    if c < ' ' && |Escape(c)| == 6 {
      var n := c as int;
      assert s[..6] == Escape(c) && s[6..] == tail;
      assert HexValue(HexDigit(n / 16)) == n / 16 && HexValue(HexDigit(n % 16)) == n % 16;
      assert s[2] == '0' && s[3] == '0' && HexValue('0') == 0;
    } else if |Escape(c)| == 2 {
      assert s[2..] == tail;
    } else {
      assert s[1..] == tail;
    }
  }

  /**
   * What is written for a character is the shortest text that reads back as it, and the only one of that
   * length without capital hexadecimal digits.
   */
  lemma EscapeShortest(c: char, s: string)
    requires s != "" && s[0] != '"' && ReadChar(s) == Some((c, ""))
    ensures |Escape(c)| <= |s|
    ensures |Escape(c)| == |s| && (forall x <- s[1..] :: !('A' <= x <= 'F')) ==> Escape(c) == s
  {
    hide HexValue;
    if s[0] == '\\' && s[1] == 'u' {
      assert |s| == 6;
      if |Escape(c)| == 6 && forall x <- s[1..] :: !('A' <= x <= 'F') {
        forall k | 2 <= k < 6 ensures HexDigit(HexValue(s[k])) == s[k] {
          assert s[k] in s[1..] by { assert s[1..][k - 1] == s[k]; }
          LowerHex(s[k]);
        }
        assert HexDigit(0) == '0' && HexValue(s[2]) == 0 && HexValue(s[3]) == 0;
        assert HexValue(s[4]) == c as int / 16 && HexValue(s[5]) == c as int % 16;
        assert s[2] == '0' && s[3] == '0';
        assert Escape(c)[..4] == "\\u00" && Escape(c)[4] == s[4] && Escape(c)[5] == s[5];
        assert s[..4] == "\\u00";
        assert Escape(c) == Escape(c)[..4] + [s[4]] + [s[5]] && s == s[..4] + [s[4]] + [s[5]];
      }
    } else if s[0] == '\\' {
      assert |s| == 2;
    } else {
      assert s == [c];
    }
  }

  lemma LowerHex(c: char)
    ensures IsHex(c) && !('A' <= c <= 'F') ==> HexDigit(HexValue(c)) == c
  {
    if 'a' <= c <= 'f' {
      assert HexDigit(10) == 'a' && HexDigit(11) == 'b' && HexDigit(12) == 'c' && HexDigit(13) == 'd';
      assert HexDigit(14) == 'e' && HexDigit(15) == 'f';
    }
  }

  lemma {:induction false} StringRoundTrip(s: string, tail: string)
    ensures ReadString(Escaped(s) + "\"" + tail) == Some((s, tail))
  {
    hide Escape, ReadChar;
    if s == "" {
      assert ("" + "\"" + tail)[1..] == tail;
    } else {
      var rest := Escaped(s[1..]) + "\"" + tail;
      assert Escaped(s) + "\"" + tail == Escape(s[0]) + rest;
      CharRoundTrip(s[0], rest);
      StringRoundTrip(s[1..], tail);
      assert s == [s[0]] + s[1..];
    }
  }

  lemma {:induction false} NumeralRunOf(s: string, tail: string)
    requires forall c <- s :: NumeralChar(c)
    requires tail == "" || !NumeralChar(tail[0])
    ensures NumeralRun(s + tail) == |s|
  {
    if s == "" {
      assert s + tail == tail;
    } else {
      assert (s + tail)[1..] == s[1..] + tail;
      NumeralRunOf(s[1..], tail);
    }
  }

  /** What can follow a value: nothing that would lengthen a numeral. */
  predicate Ends(tail: string) { tail == "" || !NumeralChar(tail[0]) }

  lemma NumeralStart(s: string)
    requires IsNumeral(s)
    ensures s != "" && (IsDigit(s[0]) || s[0] == '-')
  {
  }

  lemma NumRoundTrip(numeral: string, tail: string)
    requires IsNumeral(numeral) && Ends(tail)
    ensures ReadValue(numeral + tail) == Some((Num(numeral), tail))
  {
    hide IsNumeral, NumeralRun, NumeralChar, ReadString, ReadItems, ReadFields;
    NumeralStart(numeral);
    NumeralChars(numeral);
    RunOfNumeral(numeral, tail);
    var s := numeral + tail;
    assert s[..|numeral|] == numeral && s[|numeral|..] == tail && s[0] == numeral[0];
    assert "null"[0] == 'n' && "true"[0] == 't' && "false"[0] == 'f';
  }

  lemma RunOfNumeral(numeral: string, tail: string)
    requires IsNumeral(numeral) && Ends(tail)
    ensures NumeralRun(numeral + tail) == |numeral|
  {
    NumeralChars(numeral);
    hide IsNumeral;
    NumeralRunOf(numeral, tail);
  }

  lemma NumeralChars(s: string)
    requires IsNumeral(s)
    ensures forall c <- s :: NumeralChar(c)
  {
  }

  lemma StrRoundTrip(s: string, tail: string)
    ensures ReadValue(Quote(s) + tail) == Some((Str(s), tail))
  {
    StringRoundTrip(s, tail);
    assert (Quote(s) + tail)[1..] == Escaped(s) + "\"" + tail;
  }

  lemma WordRoundTrip(tail: string)
    ensures ReadValue("null" + tail) == Some((Null, tail))
    ensures ReadValue("true" + tail) == Some((Bool(true), tail))
    ensures ReadValue("false" + tail) == Some((Bool(false), tail))
  {
    assert ("null" + tail)[4..] == tail && ("true" + tail)[4..] == tail && ("false" + tail)[5..] == tail;
    assert ("null" + tail)[..4] == "null" && ("true" + tail)[..4] == "true" && ("false" + tail)[..5] == "false";
    assert ("true" + tail)[0] == 't' && ("false" + tail)[0] == 'f' && "null"[0] == 'n' && "true"[0] == 't';
  }

  lemma StartOf(v: Value)
    requires Finite(v)
    ensures TextOf(v) != "" && TextOf(v)[0] != ']' && TextOf(v)[0] != '}'
  {
    if v.Num? { NumeralStart(v.numeral); }
  }

  lemma ArrRead(items: seq<Value>, tail: string)
    requires items != [] ==> Finite(items[0]) && ReadItems(ItemsText(items) + "]" + tail) == Some((items, tail))
    ensures ReadValue(TextOf(Arr(items)) + tail) == Some((Arr(items), tail))
  {
    hide ReadItems, ReadFields, ReadString, IsNumeral, NumeralRun, Finite;
    var s := TextOf(Arr(items)) + tail;
    assert s[0] == '[' && s[1..] == ItemsText(items) + "]" + tail;
    if items == [] {
      assert s[1] == ']' && s[2..] == tail;
    } else {
      StartOf(items[0]);
      assert s[1] == TextOf(items[0])[0];
    }
  }

  lemma ObjRead(fields: seq<Field>, tail: string)
    requires fields != [] ==> ReadFields(FieldsText(fields) + "}" + tail) == Some((fields, tail))
    ensures ReadValue(TextOf(Obj(fields)) + tail) == Some((Obj(fields), tail))
  {
    hide ReadItems, ReadFields, ReadString, IsNumeral, NumeralRun;
    var s := TextOf(Obj(fields)) + tail;
    assert s[0] == '{' && s[1..] == FieldsText(fields) + "}" + tail;
    if fields == [] {
      assert s[1] == '}' && s[2..] == tail;
    } else {
      FieldStart(fields);
      assert s[1] == '"';
    }
  }

  /** Reading the text of a value back, whatever follows it. */
  lemma {:induction false} ValueRoundTrip(v: Value, tail: string)
    requires Finite(v) && Ends(tail)
    ensures ReadValue(TextOf(v) + tail) == Some((v, tail))
    decreases v, 0
  {
    hide Quote, IsNumeral, NumeralRun, ReadValue, ReadItems, ReadFields;
    match v {
      case Null => WordRoundTrip(tail);
      case Bool(_) => WordRoundTrip(tail);
      case Num(numeral) => NumRoundTrip(numeral, tail);
      case Str(s) => StrRoundTrip(s, tail);
      case Arr(items) =>
        if items != [] { ItemsRoundTrip(v, items, tail); }
        ArrRead(items, tail);
      case Obj(fields) =>
        if fields != [] { FieldsRoundTrip(v, fields, tail); }
        ObjRead(fields, tail);
    }
  }

  lemma FieldStart(fields: seq<Field>)
    requires fields != []
    ensures FieldsText(fields) != "" && FieldsText(fields)[0] == '"'
  {
  }

  lemma Separators(tail: string)
    ensures Ends("]" + tail) && Ends("}" + tail) && Ends("," + tail)
  {
  }

  lemma {:induction false} ItemsRoundTrip(whole: Value, items: seq<Value>, tail: string)
    requires items != [] && forall v <- items :: Finite(v) && v < whole
    ensures ReadItems(ItemsText(items) + "]" + tail) == Some((items, tail))
    decreases whole, 0, |items|
  {
    hide ReadValue, Finite, TextOf, Ends;
    var v := items[0];
    assert v in items;
    Separators(tail);
    if |items| == 1 {
      assert ItemsText(items) + "]" + tail == TextOf(v) + ("]" + tail);
      ValueRoundTrip(v, "]" + tail);
      assert ("]" + tail)[1..] == tail && items == [v];
    } else {
      var more := ItemsText(items[1..]) + "]" + tail;
      Separators(more);
      assert ItemsText(items) + "]" + tail == TextOf(v) + ("," + more);
      ValueRoundTrip(v, "," + more);
      assert ("," + more)[1..] == more;
      ItemsRoundTrip(whole, items[1..], tail);
      assert items == [v] + items[1..];
    }
  }

  lemma KeyRead(key: string, rest: string)
    ensures var s := Quote(key) + ":" + rest;
            s[0] == '"' && ReadString(s[1..]) == Some((key, ":" + rest))
  {
    StringRoundTrip(key, ":" + rest);
    assert (Quote(key) + ":" + rest)[1..] == Escaped(key) + "\"" + (":" + rest);
  }

  lemma {:induction false} FieldsRoundTrip(whole: Value, fields: seq<Field>, tail: string)
    requires fields != [] && forall f <- fields :: Finite(f.value) && f.value < whole
    ensures ReadFields(FieldsText(fields) + "}" + tail) == Some((fields, tail))
    decreases whole, 0, |fields|
  {
    hide ReadValue, ReadString, Finite, TextOf, Ends, Quote;
    var f := fields[0];
    Separators(tail);
    if |fields| == 1 {
      var rest := TextOf(f.value) + ("}" + tail);
      assert FieldsText(fields) + "}" + tail == Quote(f.key) + ":" + rest;
      KeyRead(f.key, rest);
      ValueRoundTrip(f.value, "}" + tail);
      assert (":" + rest)[1..] == rest && ("}" + tail)[1..] == tail && fields == [f];
    } else {
      var more := FieldsText(fields[1..]) + "}" + tail;
      Separators(more);
      var rest := TextOf(f.value) + ("," + more);
      assert FieldsText(fields) + "}" + tail == Quote(f.key) + ":" + rest;
      KeyRead(f.key, rest);
      ValueRoundTrip(f.value, "," + more);
      assert (":" + rest)[1..] == rest && ("," + more)[1..] == more;
      FieldsRoundTrip(whole, fields[1..], tail);
      assert fields == [f] + fields[1..];
    }
  }

  /** Parsing the text of a value gives the value back. */
  lemma ParseText(v: Value)
    requires Finite(v)
    ensures Parse(TextOf(v)) == Some(v)
  {
    ValueRoundTrip(v, "");
    assert TextOf(v) + "" == TextOf(v);
  }
}
