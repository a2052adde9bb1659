// What json.dumps writes of a record, and that what a reader of the file
// takes for JSON is just what was written.
module RecordText {
  import opened Basics
  import opened ScheduleRecord

  // A number is written with as many decimals as it has and, where it is very
  // large or very small, with an exponent.
  datatype Json =
    | JNull
    | JBool(flag: bool)
    | JNumber(negative: bool, whole: nat, decimals: seq<nat>, small: bool, exponent: seq<nat>)
    | JNaN
    | JInfinity(negative: bool)
    | JText(text: string)
    | JArray(items: seq<Json>)
    | JObject(members: seq<Member>)

  datatype Member = Member(name: string, value: Json)

  // ---- writing ----

  function Digit(n: nat): (c: char)
    requires n < 10
    ensures IsDigit(c) && (c == '0' <==> n == 0)
  {
    ('0' as int + n) as char
  }

  function Decimal(n: nat): string {
    if n < 10 then [Digit(n)] else Decimal(n / 10) + [Digit(n % 10)]
  }

  function DigitsOf(ns: seq<nat>): string {
    if ns == [] then "" else [Digit(ns[0] % 10)] + DigitsOf(ns[1..])
  }

  function HexDigit(n: nat): (c: char)
    requires n < 16
    ensures IsHex(c)
  {
    if n < 10 then Digit(n) else ('a' as int + n - 10) as char
  }

  function Hex4(n: nat): (r: string)
    requires n < 0x10000
    ensures |r| == 4 && IsHex(r[0]) && IsHex(r[1]) && IsHex(r[2]) && IsHex(r[3])
  {
    [HexDigit(n / 4096), HexDigit(n / 256 % 16), HexDigit(n / 16 % 16), HexDigit(n % 16)]
  }

  // A character of a string, in ASCII.
  function Escaped(c: char): string {
    if c == '"' then "\\\""
    else if c == '\\' then "\\\\"
    else if c == '\n' then "\\n"
    else if c == '\r' then "\\r"
    else if c == '\t' then "\\t"
    else if c == 12 as char then "\\f"
    else if c == 8 as char then "\\b"
    else if ' ' <= c <= '~' then [c]
    else if c as int < 0x10000 then "\\u" + Hex4(c as int)
    else "\\u" + Hex4(0xD800 + (c as int - 0x10000) / 1024 % 1024) + "\\u" + Hex4(0xDC00 + (c as int - 0x10000) % 1024)
  }

  function Text(t: string): string {
    if t == "" then "" else Escaped(t[0]) + Text(t[1..])
  }

  function Quoted(t: string): string {
    "\"" + (Text(t) + "\"")
  }

  function Numeral(v: Json): string
    requires v.JNumber?
  {
    (if v.negative then "-" else "") + (Decimal(v.whole) + (Decimals(v.decimals) + Power(v.small, v.exponent)))
  }

  function Decimals(ns: seq<nat>): string {
    if ns == [] then "" else "." + DigitsOf(ns)
  }

  function Power(small: bool, ns: seq<nat>): string {
    if ns == [] then "" else "e" + ((if small then "-" else "+") + DigitsOf(ns))
  }

  function Render(v: Json): string
    decreases v, 0
  {
    match v
    case JNull => "null"
    case JBool(flag) => if flag then "true" else "false"
    case JNumber(_, _, _, _, _) => Numeral(v)
    case JNaN => "NaN"
    case JInfinity(negative) => if negative then "-Infinity" else "Infinity"
    case JText(text) => Quoted(text)
    case JArray(items) => "[" + (RenderItems(items) + "]")
    case JObject(members) => "{" + (RenderMembers(members) + "}")
  }

  function RenderItems(items: seq<Json>): string
    decreases items, 1
  {
    if items == [] then ""
    else Render(items[0]) + (if |items| == 1 then "" else ", " + RenderItems(items[1..]))
  }

  function RenderMembers(members: seq<Member>): string
    decreases members, 1
  {
    if members == [] then ""
    else
      Quoted(members[0].name) + (": " + (Render(members[0].value)
                                      + (if |members| == 1 then "" else ", " + RenderMembers(members[1..]))))
  }

  // ---- reading it back ----

  // `text` stands at `i` in `s`.
  predicate At(s: string, i: nat, text: string) {
    i + |text| <= |s| && s[i..i + |text|] == text
  }

  lemma AtSplit(s: string, i: nat, a: string, b: string)
    requires At(s, i, a + b)
    ensures At(s, i, a) && At(s, i + |a|, b)
  {
    assert s[i..i + |a|] == (a + b)[..|a|];
    assert s[i + |a|..i + |a + b|] == (a + b)[|a|..];
  }

  lemma AtChar(s: string, i: nat, text: string, k: nat)
    requires At(s, i, text) && k < |text|
    ensures i + k < |s| && s[i + k] == text[k]
  {
    assert s[i..i + |text|][k] == text[k];
  }

  // Nothing that would go on with a number.
  predicate Closes(s: string, i: nat) {
    i >= |s| || s[i] == ',' || s[i] == ']' || s[i] == '}'
  }

  lemma UnicodeReads(s: string, i: nat, n: nat)
    requires n < 0x10000 && At(s, i, "\\u" + Hex4(n))
    ensures Str(s, i) == Str(s, i + 6)
  {
    hide HexDigit, IsHex;
    var e := "\\u" + Hex4(n);
    AtSplit(s, i, "\\u", Hex4(n));
    AtChar(s, i, "\\u", 0);
    AtChar(s, i, "\\u", 1);
    AtChar(s, i + 2, Hex4(n), 0);
    AtChar(s, i + 2, Hex4(n), 1);
    AtChar(s, i + 2, Hex4(n), 2);
    AtChar(s, i + 2, Hex4(n), 3);
  }

  lemma EscapeReads(s: string, i: nat, c: char)
    requires At(s, i, Escaped(c))
    ensures Str(s, i) == Str(s, i + |Escaped(c)|)
  {
    hide Hex4, Str;
    if c as int >= 0x10000 {
      var high, low := 0xD800 + (c as int - 0x10000) / 1024 % 1024, 0xDC00 + (c as int - 0x10000) % 1024;
      AtSplit(s, i, "\\u" + Hex4(high), "\\u" + Hex4(low));
      UnicodeReads(s, i, high);
      UnicodeReads(s, i + 6, low);
    } else if |Escaped(c)| == 6 {
      UnicodeReads(s, i, c as int);
    } else {
      ShortReads(s, i, c);
    }
  }

  lemma ShortReads(s: string, i: nat, c: char)
    requires At(s, i, Escaped(c)) && |Escaped(c)| <= 2
    ensures Str(s, i) == Str(s, i + |Escaped(c)|)
  {
    hide Hex4, IsHex;
    AtChar(s, i, Escaped(c), 0);
    if |Escaped(c)| == 2 {
      AtChar(s, i, Escaped(c), 1);
    }
  }

  lemma {:induction false} TextReads(s: string, i: nat, t: string)
    requires At(s, i, Text(t) + "\"")
    ensures Str(s, i) == Some(i + |Text(t)| + 1)
    decreases |t|
  {
    hide Escaped;
    if t == "" {
      AtChar(s, i, "\"", 0);
    } else {
      assert Text(t) + "\"" == Escaped(t[0]) + (Text(t[1..]) + "\"");
      AtSplit(s, i, Escaped(t[0]), Text(t[1..]) + "\"");
      EscapeReads(s, i, t[0]);
      TextReads(s, i + |Escaped(t[0])|, t[1..]);
    }
  }

  lemma QuotedReads(s: string, i: nat, t: string)
    requires At(s, i, Quoted(t))
    ensures s[i] == '"' && Str(s, i + 1) == Some(i + |Quoted(t)|)
  {
    hide Text;
    AtChar(s, i, Quoted(t), 0);
    AtSplit(s, i, "\"", Text(t) + "\"");
    TextReads(s, i + 1, t);
  }

  predicate AllDigits(text: string) {
    forall k :: 0 <= k < |text| ==> IsDigit(text[k])
  }

  lemma {:induction false} DigitsRead(s: string, i: nat, text: string)
    requires At(s, i, text) && AllDigits(text) && (i + |text| < |s| ==> !IsDigit(s[i + |text|]))
    ensures Digits(s, i) == i + |text|
    decreases |text|
  {
    if text != "" {
      AtChar(s, i, text, 0);
      AtSplit(s, i, [text[0]], text[1..]);
      assert text == [text[0]] + text[1..];
      DigitsRead(s, i + 1, text[1..]);
    }
  }

  lemma {:induction false} DecimalIs(n: nat)
    ensures Decimal(n) != "" && AllDigits(Decimal(n)) && (Decimal(n)[0] == '0' ==> Decimal(n) == "0")
  {
    if n >= 10 {
      DecimalIs(n / 10);
      LeadsWithMore(n / 10);
    }
  }

  lemma {:induction false} LeadsWithMore(n: nat)
    requires n > 0
    ensures Decimal(n)[0] != '0'
  {
    if n >= 10 {
      LeadsWithMore(n / 10);
    }
  }

  lemma {:induction false} DigitsOfAre(ns: seq<nat>)
    ensures |DigitsOf(ns)| == |ns| && AllDigits(DigitsOf(ns))
  {
    if ns != [] {
      DigitsOfAre(ns[1..]);
    }
  }

  lemma WholeReads(s: string, j: nat, whole: nat)
    requires At(s, j, Decimal(whole)) && (j + |Decimal(whole)| < |s| ==> !IsDigit(s[j + |Decimal(whole)|]))
    ensures var k := j + |Decimal(whole)|;
            j < k <= |s| && IsDigit(s[j]) && (if s[j] == '0' then j + 1 else Digits(s, j)) == k
  {
    hide Decimal, Digits;
    DecimalIs(whole);
    AtChar(s, j, Decimal(whole), 0);
    DigitsRead(s, j, Decimal(whole));
  }

  // Nothing that would go on with the digits of a number.
  predicate NoDigit(s: string, i: nat) {
    i >= |s| || !IsDigit(s[i])
  }

  lemma DecimalsRead(s: string, k: nat, ns: seq<nat>)
    requires k <= |s| && At(s, k, Decimals(ns)) && NoDigit(s, k + |Decimals(ns)|)
    requires ns == [] ==> k >= |s| || s[k] != '.'
    ensures Fraction(s, k) == k + |Decimals(ns)| && (ns != [] ==> NoDigit(s, k))
  {
    hide DigitsOf, Digits, At;
    if ns != [] {
      DigitsOfAre(ns);
      AtChar(s, k, "." + DigitsOf(ns), 0);
      AtSplit(s, k, ".", DigitsOf(ns));
      AtChar(s, k + 1, DigitsOf(ns), 0);
      DigitsRead(s, k + 1, DigitsOf(ns));
    }
  }

  lemma PowerReads(s: string, k: nat, small: bool, ns: seq<nat>)
    requires k <= |s| && At(s, k, Power(small, ns)) && Closes(s, k + |Power(small, ns)|)
    ensures Exponent(s, k) == k + |Power(small, ns)| && NoDigit(s, k) && (k >= |s| || s[k] != '.')
  {
    hide DigitsOf, Digits, At;
    if ns != [] {
      var sign := if small then "-" else "+";
      DigitsOfAre(ns);
      AtSplit(s, k, "e", sign + DigitsOf(ns));
      AtSplit(s, k + 1, sign, DigitsOf(ns));
      AtChar(s, k, "e", 0);
      AtChar(s, k + 1, sign, 0);
      AtChar(s, k + 2, DigitsOf(ns), 0);
      DigitsRead(s, k + 2, DigitsOf(ns));
    }
  }

  // The whole digits, the decimals and the exponent where there are any.
  lemma UnsignedReads(s: string, j: nat, whole: nat, decimals: seq<nat>, small: bool, exponent: seq<nat>)
    requires At(s, j, Decimal(whole) + (Decimals(decimals) + Power(small, exponent)))
    requires Closes(s, j + |Decimal(whole)| + |Decimals(decimals)| + |Power(small, exponent)|)
    ensures var k := j + |Decimal(whole)|;
            && j < k <= |s| && IsDigit(s[j]) && (if s[j] == '0' then j + 1 else Digits(s, j)) == k
            && Fraction(s, k) == k + |Decimals(decimals)| <= |s|
            && Exponent(s, k + |Decimals(decimals)|) == k + |Decimals(decimals)| + |Power(small, exponent)|
  {
    hide Decimal, Decimals, Power, Digits, At, Fraction, Exponent;
    var k := j + |Decimal(whole)|;
    AtSplit(s, j, Decimal(whole), Decimals(decimals) + Power(small, exponent));
    AtSplit(s, k, Decimals(decimals), Power(small, exponent));
    AtEnds(s, k, Decimals(decimals));
    AtEnds(s, k + |Decimals(decimals)|, Power(small, exponent));
    PowerReads(s, k + |Decimals(decimals)|, small, exponent);
    NoDecimals(decimals);
    DecimalsRead(s, k, decimals);
    WholeReads(s, j, whole);
  }

  lemma NoDecimals(ns: seq<nat>)
    ensures ns == [] ==> Decimals(ns) == ""
  {
  }

  lemma AtEnds(s: string, i: nat, text: string)
    requires At(s, i, text)
    ensures i + |text| <= |s|
  {
  }

  lemma NumeralReads(s: string, i: nat, v: Json)
    requires v.JNumber? && At(s, i, Numeral(v)) && Closes(s, i + |Numeral(v)|)
    ensures Value(s, i) == Some(i + |Numeral(v)|)
  {
    hide Decimal, Decimals, Power, Digits, Fraction, Exponent, At;
    var sign := if v.negative then "-" else "";
    AtSplit(s, i, sign, Decimal(v.whole) + (Decimals(v.decimals) + Power(v.small, v.exponent)));
    UnsignedReads(s, i + |sign|, v.whole, v.decimals, v.small, v.exponent);
    if v.negative {
      AtChar(s, i, sign, 0);
      NotInfinity(s, i);
    } else {
      NoWord(s, i);
    }
    assert Number(s, i) == Some(i + |Numeral(v)|);
  }

  lemma NoWord(s: string, i: nat)
    requires i < |s| && IsDigit(s[i])
    ensures Word(s, i, "-Infinity") == None
  {
    assert i + 9 <= |s| ==> s[i..i + 9][0] == s[i];
  }

  lemma NotInfinity(s: string, i: nat)
    requires i + 1 < |s| && IsDigit(s[i + 1])
    ensures Word(s, i, "-Infinity") == None
  {
    assert i + 9 <= |s| ==> s[i..i + 9][1] == s[i + 1] && "-Infinity"[1] == 'I';
  }

  lemma WordReads(s: string, i: nat, word: string)
    requires At(s, i, word) && word in {"null", "true", "false", "NaN", "Infinity", "-Infinity"}
    ensures Value(s, i) == Some(i + |word|)
  {
    AtChar(s, i, word, 0);
  }

  // What is not blank is not skipped, and one blank is.
  lemma SkipsOne(s: string, i: nat)
    requires i + 1 < |s| && s[i] == ' ' && !IsBlank(s[i + 1])
    ensures Skip(s, i) == i + 1
  {
  }

  lemma {:induction false} StartsPlainly(v: Json)
    ensures Render(v) != "" && !IsBlank(Render(v)[0]) && Render(v)[0] != ']' && Render(v)[0] != '}'
  {
    if v.JNumber? {
      DecimalIs(v.whole);
    }
  }

  // Whatever is written is read to its end.
  lemma {:induction false} RenderReads(s: string, i: nat, v: Json)
    requires At(s, i, Render(v)) && Closes(s, i + |Render(v)|)
    ensures Value(s, i) == Some(i + |Render(v)|)
    decreases v, 0
  {
    hide Numeral, Quoted, RenderItems, RenderMembers;
    match v
    case JNull => WordReads(s, i, "null");
    case JBool(flag) => WordReads(s, i, if flag then "true" else "false");
    case JNumber(_, _, _, _, _) => NumeralReads(s, i, v);
    case JNaN => WordReads(s, i, "NaN");
    case JInfinity(negative) => WordReads(s, i, if negative then "-Infinity" else "Infinity");
    case JText(text) => QuotedReads(s, i, text);
    case JArray(items) => ArrayReads(s, i, items);
    case JObject(members) => ObjectReads(s, i, members);
  }

  lemma {:induction false} ArrayReads(s: string, i: nat, items: seq<Json>)
    requires At(s, i, "[" + (RenderItems(items) + "]"))
    ensures Value(s, i) == Some(i + 1 + |RenderItems(items)| + 1)
    decreases items, 2
  {
    hide RenderItems, At, Elements;
    var end := i + 1 + |RenderItems(items)|;
    AtSplit(s, i, "[", RenderItems(items) + "]");
    AtSplit(s, i + 1, RenderItems(items), "]");
    AtChar(s, i, "[", 0);
    AtChar(s, end, "]", 0);
    if items == [] {
      NothingWritten();
      assert Skip(s, i + 1) == i + 1 == end;
    } else {
      ItemsStart(s, i + 1, items);
      ItemsRead(s, i + 1, items);
    }
  }

  lemma {:induction false} ObjectReads(s: string, i: nat, members: seq<Member>)
    requires At(s, i, "{" + (RenderMembers(members) + "}"))
    ensures Value(s, i) == Some(i + 1 + |RenderMembers(members)| + 1)
    decreases members, 2
  {
    hide RenderMembers, At, Members;
    var end := i + 1 + |RenderMembers(members)|;
    AtSplit(s, i, "{", RenderMembers(members) + "}");
    AtSplit(s, i + 1, RenderMembers(members), "}");
    AtChar(s, i, "{", 0);
    AtChar(s, end, "}", 0);
    if members == [] {
      NothingWritten();
      assert Skip(s, i + 1) == i + 1 == end;
    } else {
      MembersStart(s, i + 1, members);
      MembersRead(s, i + 1, members);
    }
  }

  lemma NothingWritten()
    ensures RenderItems([]) == "" && RenderMembers([]) == ""
  {
  }

  lemma ItemsStart(s: string, i: nat, items: seq<Json>)
    requires items != [] && At(s, i, RenderItems(items))
    ensures i < |s| && !IsBlank(s[i]) && s[i] != ']' && Skip(s, i) == i
  {
    hide Render;
    StartsPlainly(items[0]);
    AtChar(s, i, RenderItems(items), 0);
  }

  lemma MembersStart(s: string, i: nat, members: seq<Member>)
    requires members != [] && At(s, i, RenderMembers(members))
    ensures i < |s| && s[i] == '"' && Skip(s, i) == i
  {
    hide Render;
    AtChar(s, i, RenderMembers(members), 0);
  }

  lemma {:induction false} ItemsRead(s: string, i: nat, items: seq<Json>)
    requires items != [] && At(s, i, RenderItems(items))
    requires i + |RenderItems(items)| < |s| && s[i + |RenderItems(items)|] == ']'
    ensures Elements(s, i) == Some(i + |RenderItems(items)| + 1)
    decreases items, 1
  {
    hide Render, Value, At, Elements, RenderItems;
    var v, rest := items[0], items[1..];
    var end := i + |Render(v)|;
    ItemsParts(s, i, items);
    if |items| > 1 {
      AtChar(s, end, ", ", 0);
      AtChar(s, end, ", ", 1);
      RenderReads(s, i, v);
      ItemsStart(s, end + 2, rest);
      SkipsOne(s, end + 1);
      ItemsRead(s, end + 2, rest);
    } else {
      RenderReads(s, i, v);
    }
    OneItem(s, i, end);
  }

  lemma ItemsParts(s: string, i: nat, items: seq<Json>)
    requires items != [] && At(s, i, RenderItems(items))
    ensures var v, rest := items[0], items[1..];
            var end := i + |Render(v)|;
            && At(s, i, Render(v))
            && (|items| > 1 ==> At(s, end, ", ") && At(s, end + 2, RenderItems(rest)))
            && i + |RenderItems(items)| == if |items| > 1 then end + 2 + |RenderItems(rest)| else end
  {
    hide Render, At;
    var more := if |items| == 1 then "" else ", " + RenderItems(items[1..]);
    AtSplit(s, i, Render(items[0]), more);
    if |items| > 1 {
      AtSplit(s, i + |Render(items[0])|, ", ", RenderItems(items[1..]));
    }
  }

  lemma OneItem(s: string, i: nat, end: nat)
    requires i <= |s| && Value(s, i) == Some(end) && end < |s|
    ensures s[end] == ']' ==> Elements(s, i) == Some(end + 1)
    ensures s[end] == ',' ==> Elements(s, i) == Elements(s, Skip(s, end + 1))
  {
    hide Value;
    assert s[end] == ']' || s[end] == ',' ==> Skip(s, end) == end;
  }

  lemma {:induction false} MembersRead(s: string, i: nat, members: seq<Member>)
    requires members != [] && At(s, i, RenderMembers(members))
    requires i + |RenderMembers(members)| < |s| && s[i + |RenderMembers(members)|] == '}'
    ensures Members(s, i) == Some(i + |RenderMembers(members)| + 1)
    decreases members, 1
  {
    hide Render, Value, Quoted, At, Str, AfterName, Members, RenderMembers;
    var name, v, rest := members[0].name, members[0].value, members[1..];
    var colon := i + |Quoted(name)|;
    var end := colon + 2 + |Render(v)|;
    MembersParts(s, i, members);
    StartsAt(s, colon, v);
    NameReads(s, i, name);
    if |members| > 1 {
      AtChar(s, end, ", ", 0);
      AtChar(s, end, ", ", 1);
      RenderReads(s, colon + 2, v);
      MembersStart(s, end + 2, rest);
      SkipsOne(s, end + 1);
      MembersRead(s, end + 2, rest);
    } else {
      RenderReads(s, colon + 2, v);
    }
    OneMember(s, i, colon + 2, end);
  }

  lemma MembersParts(s: string, i: nat, members: seq<Member>)
    requires members != [] && At(s, i, RenderMembers(members))
    ensures var name, v, rest := members[0].name, members[0].value, members[1..];
            var colon := i + |Quoted(name)|;
            var end := colon + 2 + |Render(v)|;
            && At(s, i, Quoted(name)) && At(s, colon, ": ") && At(s, colon + 2, Render(v))
            && (|members| > 1 ==> At(s, end, ", ") && At(s, end + 2, RenderMembers(rest)))
            && i + |RenderMembers(members)| == if |members| > 1 then end + 2 + |RenderMembers(rest)| else end
  {
    hide Render, Quoted, At;
    var name, v := members[0].name, members[0].value;
    var more := if |members| == 1 then "" else ", " + RenderMembers(members[1..]);
    var colon := i + |Quoted(name)|;
    AtSplit(s, i, Quoted(name), ": " + (Render(v) + more));
    AtSplit(s, colon, ": ", Render(v) + more);
    AtSplit(s, colon + 2, Render(v), more);
    if |members| > 1 {
      AtSplit(s, colon + 2 + |Render(v)|, ", ", RenderMembers(members[1..]));
    }
  }

  lemma OneMember(s: string, i: nat, v: nat, end: nat)
    requires i <= |s| && v <= |s| && AfterName(s, i) == Some(v) && Value(s, v) == Some(end) && end < |s|
    ensures s[end] == '}' ==> Members(s, i) == Some(end + 1)
    ensures s[end] == ',' ==> Members(s, i) == Members(s, Skip(s, end + 1))
  {
    hide AfterName, Value;
    assert s[end] == '}' || s[end] == ',' ==> Skip(s, end) == end;
  }

  // A colon, a blank, and a value behind them.
  lemma StartsAt(s: string, colon: nat, v: Json)
    requires At(s, colon, ": ") && At(s, colon + 2, Render(v))
    ensures colon + 2 < |s| && s[colon] == ':' && s[colon + 1] == ' ' && !IsBlank(s[colon + 2])
  {
    hide Render;
    AtChar(s, colon, ": ", 0);
    AtChar(s, colon, ": ", 1);
    StartsPlainly(v);
    AtChar(s, colon + 2, Render(v), 0);
  }

  lemma NameReads(s: string, i: nat, name: string)
    requires At(s, i, Quoted(name))
    requires var colon := i + |Quoted(name)|;
             colon + 2 < |s| && s[colon] == ':' && s[colon + 1] == ' ' && !IsBlank(s[colon + 2])
    ensures AfterName(s, i) == Some(i + |Quoted(name)| + 2)
  {
    hide Str, Quoted, At;
    QuotedReads(s, i, name);
    SkipsOne(s, i + |Quoted(name)| + 1);
  }

  // So what json.dumps writes of an object is the text of one, whatever names,
  // strings and numbers are in it.
  lemma RecordIsObject(members: seq<Member>)
    ensures ObjectText(Render(JObject(members)))
  {
    hide RenderMembers;
    var text := Render(JObject(members));
    assert text[0..0 + |text|] == text;
    RenderReads(text, 0, JObject(members));
  }

  // The writes of a run in which every one is of some record.
  ghost predicate WritesRecords(steps: seq<Step>) {
    forall i :: 0 <= i < |steps| && steps[i].Overwrite? ==>
      exists members :: steps[i].text == Render(JObject(members))
  }

  lemma RecordsAreObjects(steps: seq<Step>)
    requires WritesRecords(steps)
    ensures WritesObjects(steps)
  {
    hide Render, ObjectText;
    forall i | 0 <= i < |steps| && steps[i].Overwrite?
      ensures ObjectText(steps[i].text)
    {
      var members :| steps[i].text == Render(JObject(members));
      RecordIsObject(members);
    }
  }

  // Over any records, then: what a read returns is one of them, as it was
  // written and in force when it looked, or none, and that only before the
  // first or where both its looks fell inside a write.
  lemma RecordIsReadBack(before: seq<Step>, between: seq<Step>)
    requires WritesRecords(before + between)
    ensures var first, second := AfterAll(before), AfterAll(before + between);
            Recorded(Some(first.content), Some(second.content))
            == if !Torn(first) then first.latest else if !Torn(second) then second.latest else None
  {
    RecordsAreObjects(before + between);
    ReadIsWhole(before, between);
  }
}
