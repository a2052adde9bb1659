// The schedule record on disk: one JSON object, overwritten in place and then
// cut to its length, and a reader that may look between the two.
module ScheduleRecord {
  import opened Basics

  // ---- what json.loads accepts: the texts of RFC 8259, and NaN and Infinity ----

  predicate IsBlank(c: char) {
    c == ' ' || c == '\t' || c == '\n' || c == '\r'
  }

  predicate IsDigit(c: char) {
    '0' <= c <= '9'
  }

  predicate IsHex(c: char) {
    IsDigit(c) || 'a' <= c <= 'f' || 'A' <= c <= 'F'
  }

  function Skip(s: string, i: nat): (j: nat)
    requires i <= |s|
    ensures i <= j <= |s| && (j < |s| ==> !IsBlank(s[j]))
    decreases |s| - i
  {
    if i < |s| && IsBlank(s[i]) then Skip(s, i + 1) else i
  }

  function Digits(s: string, i: nat): (j: nat)
    requires i <= |s|
    ensures i <= j <= |s| && (j < |s| ==> !IsDigit(s[j]))
    decreases |s| - i
  {
    if i < |s| && IsDigit(s[i]) then Digits(s, i + 1) else i
  }

  // The end of what starts at `i`, if it is there. From just after the
  // opening quote of a string:
  function Str(s: string, i: nat): (r: Option<nat>)
    requires i <= |s|
    ensures r.Some? ==> i < r.value <= |s|
    decreases |s| - i
  {
    if i >= |s| || s[i] < ' ' then None
    else if s[i] == '"' then Some(i + 1)
    else if s[i] != '\\' then Str(s, i + 1)
    else if i + 1 < |s| && s[i + 1] in "\"\\/bfnrt" then Str(s, i + 2)
    else if i + 6 <= |s| && s[i + 1] == 'u'
            && IsHex(s[i + 2]) && IsHex(s[i + 3]) && IsHex(s[i + 4]) && IsHex(s[i + 5]) then Str(s, i + 6)
    else None
  }

  function Word(s: string, i: nat, word: string): (r: Option<nat>)
    requires i <= |s| && word != ""
    ensures r.Some? ==> i < r.value <= |s|
  {
    if i + |word| <= |s| && s[i..i + |word|] == word then Some(i + |word|) else None
  }

  // An optional sign, digits without a leading zero, and a fraction and an
  // exponent where they are complete.
  function Number(s: string, i: nat): (r: Option<nat>)
    requires i <= |s|
    ensures r.Some? ==> i < r.value <= |s|
  {
    var j := if i < |s| && s[i] == '-' then i + 1 else i;
    if j >= |s| || !IsDigit(s[j]) then None
    else
      var whole := if s[j] == '0' then j + 1 else Digits(s, j);
      var fraction := Fraction(s, whole);
      Some(Exponent(s, fraction))
  }

  function Fraction(s: string, i: nat): (j: nat)
    requires i <= |s|
    ensures i <= j <= |s|
  {
    if i + 1 < |s| && s[i] == '.' && IsDigit(s[i + 1]) then Digits(s, i + 1) else i
  }

  function Exponent(s: string, i: nat): (j: nat)
    requires i <= |s|
    ensures i <= j <= |s|
  {
    if i < |s| && (s[i] == 'e' || s[i] == 'E') then
      var k := if i + 1 < |s| && (s[i + 1] == '+' || s[i + 1] == '-') then i + 2 else i + 1;
      if k < |s| && IsDigit(s[k]) then Digits(s, k) else i
    else i
  }

  function Value(s: string, i: nat): (r: Option<nat>)
    requires i <= |s|
    ensures r.Some? ==> i < r.value <= |s|
    decreases |s| - i, 1
  {
    if i >= |s| then None
    else if s[i] == '{' then
      var j := Skip(s, i + 1);
      if j < |s| && s[j] == '}' then Some(j + 1) else Members(s, j)
    else if s[i] == '[' then
      var j := Skip(s, i + 1);
      if j < |s| && s[j] == ']' then Some(j + 1) else Elements(s, j)
    else Scalar(s, i)
  }

  function Scalar(s: string, i: nat): (r: Option<nat>)
    requires i < |s|
    ensures r.Some? ==> i < r.value <= |s|
  {
    match s[i]
    case '"' => Str(s, i + 1)
    case 't' => Word(s, i, "true")
    case 'f' => Word(s, i, "false")
    case 'n' => Word(s, i, "null")
    case 'N' => Word(s, i, "NaN")
    case 'I' => Word(s, i, "Infinity")
    case _ =>
      if Word(s, i, "-Infinity").Some? then Word(s, i, "-Infinity") else Number(s, i)
  }

  // The members of an object from one's opening quote, and the closing brace.
  function Members(s: string, i: nat): (r: Option<nat>)
    requires i <= |s|
    ensures r.Some? ==> i < r.value <= |s|
    decreases |s| - i, 0
  {
    var v := AfterName(s, i);
    if v.None? then None
    else
      var end := Value(s, v.value);
      if end.None? then None
      else
        var j := Skip(s, end.value);
        if j >= |s| then None
        else if s[j] == '}' then Some(j + 1)
        else if s[j] == ',' then Members(s, Skip(s, j + 1))
        else None
  }

  // Where the value of a member starts.
  function AfterName(s: string, i: nat): (r: Option<nat>)
    requires i <= |s|
    ensures r.Some? ==> i < r.value <= |s|
  {
    if i >= |s| || s[i] != '"' then None
    else
      var name := Str(s, i + 1);
      if name.None? then None
      else
        var colon := Skip(s, name.value);
        if colon < |s| && s[colon] == ':' then Some(Skip(s, colon + 1)) else None
  }

  function Elements(s: string, i: nat): (r: Option<nat>)
    requires i <= |s|
    ensures r.Some? ==> i < r.value <= |s|
    decreases |s| - i, 2
  {
    var end := Value(s, i);
    if end.None? then None
    else
      var j := Skip(s, end.value);
      if j >= |s| then None
      else if s[j] == ']' then Some(j + 1)
      else if s[j] == ',' then Elements(s, Skip(s, j + 1))
      else None
  }

  predicate IsJson(s: string) {
    var end := Value(s, Skip(s, 0));
    end.Some? && Skip(s, end.value) == |s|
  }

  // A record as json.dumps writes one: an object, with nothing around it.
  predicate ObjectText(s: string) {
    s != "" && s[0] == '{' && Value(s, 0) == Some(|s|)
  }

  // ---- reading on past the end of a text changes nothing inside it ----

  lemma {:induction false} SkipLocal(s: string, t: string, i: nat)
    requires i <= |s| && Skip(s, i) < |s|
    ensures Skip(s + t, i) == Skip(s, i)
    decreases |s| - i
  {
    assert (s + t)[i] == s[i];
    if IsBlank(s[i]) {
      SkipLocal(s, t, i + 1);
    }
  }

  lemma {:induction false} DigitsLocal(s: string, t: string, i: nat)
    requires i <= |s| && Digits(s, i) < |s|
    ensures Digits(s + t, i) == Digits(s, i)
    decreases |s| - i
  {
    assert (s + t)[i] == s[i];
    if IsDigit(s[i]) {
      DigitsLocal(s, t, i + 1);
    }
  }

  lemma {:induction false} StrLocal(s: string, t: string, i: nat)
    requires i <= |s| && Str(s, i).Some?
    ensures Str(s + t, i) == Str(s, i)
    decreases |s| - i
  {
    var u := s + t;
    assert u[i] == s[i];
    if s[i] != '"' {
      if s[i] != '\\' {
        StrLocal(s, t, i + 1);
      } else {
        assert u[i + 1] == s[i + 1];
        if s[i + 1] in "\"\\/bfnrt" {
          StrLocal(s, t, i + 2);
        } else {
          assert u[i + 2] == s[i + 2] && u[i + 3] == s[i + 3] && u[i + 4] == s[i + 4] && u[i + 5] == s[i + 5];
          StrLocal(s, t, i + 6);
        }
      }
    }
  }

  // What may follow a value inside an object or an array.
  predicate IsStop(c: char) {
    IsBlank(c) || c == ',' || c == '}' || c == ']'
  }

  lemma NumberLocal(s: string, t: string, i: nat)
    requires i <= |s| && Number(s, i).Some? && Number(s, i).value < |s| && IsStop(s[Number(s, i).value])
    ensures Number(s + t, i) == Number(s, i)
  {
    hide Digits, Fraction, Exponent;
    var u := s + t;
    var j := if s[i] == '-' then i + 1 else i;
    var whole := if s[j] == '0' then j + 1 else Digits(s, j);
    var fraction := Fraction(s, whole);
    var end := Exponent(s, fraction);
    assert u[i] == s[i] && u[j] == s[j];
    assert whole <= fraction <= end < |s|;
    if s[j] != '0' {
      DigitsLocal(s, t, j);
    }
    FractionLocal(s, t, whole);
    ExponentLocal(s, t, fraction);
  }

  lemma FractionLocal(s: string, t: string, i: nat)
    requires i <= |s| && Exponent(s, Fraction(s, i)) < |s| && IsStop(s[Exponent(s, Fraction(s, i))])
    ensures Fraction(s + t, i) == Fraction(s, i)
  {
    assert (s + t)[i] == s[i];
    if i + 1 < |s| {
      assert (s + t)[i + 1] == s[i + 1];
      if s[i] == '.' && IsDigit(s[i + 1]) {
        DigitsLocal(s, t, i + 1);
      }
    }
  }

  lemma ExponentLocal(s: string, t: string, i: nat)
    requires i <= |s| && Exponent(s, i) < |s| && IsStop(s[Exponent(s, i)])
    ensures Exponent(s + t, i) == Exponent(s, i)
  {
    assert (s + t)[i] == s[i];
    if s[i] == 'e' || s[i] == 'E' {
      assert i + 1 < |s| ==> (s + t)[i + 1] == s[i + 1];
      var k := if i + 1 < |s| && (s[i + 1] == '+' || s[i + 1] == '-') then i + 2 else i + 1;
      assert k < |s| && IsDigit(s[k]);
      assert (s + t)[k] == s[k];
      DigitsLocal(s, t, k);
    }
  }

  lemma WordLocal(s: string, t: string, i: nat, word: string)
    requires i <= |s| && word != "" && Word(s, i, word).Some?
    ensures Word(s + t, i, word) == Word(s, i, word)
  {
    assert (s + t)[i..i + |word|] == s[i..i + |word|];
  }

  lemma ScalarLocal(s: string, t: string, i: nat)
    requires i < |s| && Scalar(s, i).Some?
    requires s[i] == '"' || (Scalar(s, i).value < |s| && IsStop(s[Scalar(s, i).value]))
    ensures Scalar(s + t, i) == Scalar(s, i)
  {
    var u := s + t;
    assert u[i] == s[i];
    match s[i]
    case '"' => StrLocal(s, t, i + 1);
    case 't' => WordLocal(s, t, i, "true");
    case 'f' => WordLocal(s, t, i, "false");
    case 'n' => WordLocal(s, t, i, "null");
    case 'N' => WordLocal(s, t, i, "NaN");
    case 'I' => WordLocal(s, t, i, "Infinity");
    case _ =>
      if Word(s, i, "-Infinity").Some? {
        WordLocal(s, t, i, "-Infinity");
      } else {
        NumberLocal(s, t, i);
        NotInfinity(s, t, i);
      }
  }

  lemma NotInfinity(s: string, t: string, i: nat)
    requires i < |s| && Number(s, i).Some?
    ensures Word(s + t, i, "-Infinity").None?
  {
    var u := s + t;
    assert u[i] == s[i];
    if s[i] == '-' {
      assert i + 1 < |s| && u[i + 1] == s[i + 1] && IsDigit(s[i + 1]);
    }
    if i + 9 <= |u| {
      assert u[i..i + 9][0] == u[i] && u[i..i + 9][1] == u[i + 1];
      assert "-Infinity"[0] == '-' && "-Infinity"[1] == 'I';
    }
  }

  lemma AfterNameLocal(s: string, t: string, i: nat)
    requires i <= |s| && AfterName(s, i).Some? && AfterName(s, i).value < |s|
    ensures AfterName(s + t, i) == AfterName(s, i)
  {
    assert (s + t)[i] == s[i];
    StrLocal(s, t, i + 1);
    var colon := Skip(s, Str(s, i + 1).value);
    SkipLocal(s, t, Str(s, i + 1).value);
    assert (s + t)[colon] == s[colon];
    SkipLocal(s, t, colon + 1);
  }

  // Whether what starts at `i` shows its own end.
  predicate SelfEnding(s: string, i: nat)
    requires i < |s|
  {
    s[i] == '{' || s[i] == '[' || s[i] == '"'
  }

  lemma {:induction false} ValueLocal(s: string, t: string, i: nat)
    requires i < |s| && Value(s, i).Some?
    requires SelfEnding(s, i) || (Value(s, i).value < |s| && IsStop(s[Value(s, i).value]))
    ensures Value(s + t, i) == Value(s, i)
    decreases |s| - i, 1
  {
    assert (s + t)[i] == s[i];
    if s[i] == '{' || s[i] == '[' {
      var j := Skip(s, i + 1);
      assert j < |s|;
      SkipLocal(s, t, i + 1);
      assert (s + t)[j] == s[j];
      if s[i] == '{' && s[j] != '}' {
        MembersLocal(s, t, j);
      }
      if s[i] == '[' && s[j] != ']' {
        ElementsLocal(s, t, j);
      }
    } else {
      ScalarLocal(s, t, i);
    }
  }

  // A value that something follows, up to that something.
  lemma {:induction false} ItemLocal(s: string, t: string, i: nat)
    requires i <= |s| && Value(s, i).Some? && Skip(s, Value(s, i).value) < |s|
    requires s[Skip(s, Value(s, i).value)] in {',', '}', ']'}
    ensures Value(s + t, i) == Value(s, i)
    ensures Skip(s + t, Value(s, i).value) == Skip(s, Value(s, i).value)
    decreases |s| - i, 2
  {
    var end := Value(s, i).value;
    assert IsStop(s[end]);
    ValueLocal(s, t, i);
    SkipLocal(s, t, end);
  }

  lemma ValueIsInside(s: string, i: nat)
    requires i <= |s| && Value(s, i).Some?
    ensures i < |s|
  {
  }

  lemma {:induction false} MembersLocal(s: string, t: string, i: nat)
    requires i <= |s| && Members(s, i).Some?
    ensures Members(s + t, i) == Members(s, i)
    decreases |s| - i, 0
  {
    hide AfterName, Value, Skip;
    var v := AfterName(s, i).value;
    ValueIsInside(s, v);
    AfterNameLocal(s, t, i);
    ItemLocal(s, t, v);
    var j := Skip(s, Value(s, v).value);
    assert (s + t)[j] == s[j];
    if s[j] == ',' {
      SkipLocal(s, t, j + 1);
      MembersLocal(s, t, Skip(s, j + 1));
    }
  }

  lemma {:induction false} ElementsLocal(s: string, t: string, i: nat)
    requires i <= |s| && Elements(s, i).Some?
    ensures Elements(s + t, i) == Elements(s, i)
    decreases |s| - i, 3
  {
    hide Value, Skip;
    ItemLocal(s, t, i);
    var j := Skip(s, Value(s, i).value);
    assert (s + t)[j] == s[j];
    if s[j] == ',' {
      SkipLocal(s, t, j + 1);
      ElementsLocal(s, t, Skip(s, j + 1));
    }
  }

  // Object texts are prefix-free, even against texts with more behind them.
  lemma PrefixFree(a: string, rest: string)
    requires ObjectText(a)
    ensures Value(a + rest, 0) == Some(|a|)
    ensures ObjectText(a + rest) <==> rest == ""
  {
    ValueLocal(a, rest, 0);
    assert (a + rest)[0] == a[0];
  }

  // An object with anything but blanks behind it is no JSON text.
  lemma TornIsNotJson(a: string, rest: string)
    requires ObjectText(a)
    ensures IsJson(a + rest) <==> forall i :: 0 <= i < |rest| ==> IsBlank(rest[i])
  {
    PrefixFree(a, rest);
    assert (a + rest)[0] == '{';
    assert Skip(a + rest, 0) == 0;
    SkipsToEnd(a + rest, |a|);
    assert forall i :: 0 <= i < |rest| ==> (a + rest)[|a| + i] == rest[i];
    assert forall i :: |a| <= i < |a + rest| ==> (a + rest)[i] == rest[i - |a|];
  }

  lemma {:induction false} SkipsToEnd(s: string, i: nat)
    requires i <= |s|
    ensures Skip(s, i) == |s| <==> forall j :: i <= j < |s| ==> IsBlank(s[j])
    decreases |s| - i
  {
    if i < |s| && IsBlank(s[i]) {
      SkipsToEnd(s, i + 1);
    }
  }

  lemma {:induction false} MembersClose(s: string, i: nat)
    requires i <= |s| && Members(s, i).Some?
    ensures s[Members(s, i).value - 1] == '}'
    decreases |s| - i
  {
    hide AfterName, Value, Skip;
    var j := Skip(s, Value(s, AfterName(s, i).value).value);
    if s[j] == ',' {
      MembersClose(s, Skip(s, j + 1));
    }
  }

  lemma ObjectCloses(s: string)
    requires ObjectText(s)
    ensures s[|s| - 1] == '}'
  {
    var j := Skip(s, 1);
    if !(j < |s| && s[j] == '}') {
      MembersClose(s, j);
    }
  }

  // ---- the file ----

  // `latest` is the last record written over the file.
  datatype Disk = Disk(content: string, latest: Option<string>)

  // A write puts the record over the start of the file and then cuts the file
  // to its length; either half may fail, and then is not taken.
  datatype Step = Overwrite(text: string) | Truncate

  function After(d: Disk, step: Step): Disk {
    match step
    case Overwrite(text) => Disk(text + (if |d.content| > |text| then d.content[|text|..] else ""), Some(text))
    case Truncate => if d.latest.Some? then d.(content := d.latest.value) else d
  }

  function AfterAll(steps: seq<Step>): Disk {
    if steps == [] then Disk("", None) else After(AfterAll(steps[..|steps| - 1]), steps[|steps| - 1])
  }

  predicate Torn(d: Disk) {
    d.latest.Some? && d.content != d.latest.value
  }

  predicate DiskInv(d: Disk) {
    match d.latest
    case None => d.content == ""
    case Some(text) =>
      ObjectText(text) && |text| <= |d.content| && d.content[..|text|] == text && d.content[|d.content| - 1] == '}'
  }

  predicate WritesObjects(steps: seq<Step>) {
    forall i :: 0 <= i < |steps| ==> steps[i].Overwrite? ==> ObjectText(steps[i].text)
  }

  lemma {:induction false} FileIsRecordAndTail(steps: seq<Step>)
    requires WritesObjects(steps)
    ensures DiskInv(AfterAll(steps))
  {
    hide ObjectText;
    if steps != [] {
      var d := AfterAll(steps[..|steps| - 1]);
      FileIsRecordAndTail(steps[..|steps| - 1]);
      var step := steps[|steps| - 1];
      if step.Overwrite? {
        ObjectCloses(step.text);
        NotEmpty(step.text);
      } else if d.latest.Some? {
        ObjectCloses(d.latest.value);
        NotEmpty(d.latest.value);
      }
    }
  }

  lemma NotEmpty(s: string)
    requires ObjectText(s)
    ensures s != "" && s[0] == '{' && IsJson(s)
  {
    TornIsNotJson(s, "");
    assert s + "" == s;
  }

  // Cut to its length the file is the record; and a record just put over the
  // start of it is the file unless what was there was longer.
  lemma TornOnlyUntilCut(steps: seq<Step>)
    requires steps != []
    ensures var d, before := AfterAll(steps), AfterAll(steps[..|steps| - 1]);
            match steps[|steps| - 1]
            case Truncate => !Torn(d) && d.latest == before.latest
            case Overwrite(text) => d.latest == Some(text) && (Torn(d) <==> |before.content| > |text|)
  {
  }

  // Caught between the two halves of a write, or left there by one that
  // failed, the file is no JSON text; at every other moment it is the record
  // last written.
  lemma TornIffInvalid(steps: seq<Step>)
    requires WritesObjects(steps)
    ensures var d := AfterAll(steps);
            d.latest.Some? ==> (IsJson(d.content) <==> d.content == d.latest.value)
  {
    hide ObjectText, IsJson;
    var d := AfterAll(steps);
    FileIsRecordAndTail(steps);
    if d.latest.Some? {
      var text := d.latest.value;
      var rest := d.content[|text|..];
      assert d.content == text + rest;
      TornIsNotJson(text, rest);
      if rest != "" {
        assert rest[|rest| - 1] == '}';
      }
    }
  }

  // ---- the reader ----

  // What bytes.strip takes away.
  predicate IsSpace(c: char) {
    IsBlank(c) || c as int == 11 || c as int == 12
  }

  function StripLeft(s: string): string {
    if s != "" && IsSpace(s[0]) then StripLeft(s[1..]) else s
  }

  function StripRight(s: string): string {
    if s != "" && IsSpace(s[|s| - 1]) then StripRight(s[..|s| - 1]) else s
  }

  // The record a look at the file yields, None for an empty one; a failure
  // where what it holds does not parse.
  function Look(found: Option<string>): Result<Option<string>, ()> {
    if found.None? then Success(None)
    else
      var raw := StripRight(StripLeft(found.value));
      if raw == "" then Success(None)
      else if !IsJson(raw) then Failure(())
      else if raw[0] == '{' then Success(Some(raw))
      else Success(None)
  }

  // What two looks at the file come to.
  function Recorded(first: Option<string>, second: Option<string>): Option<string> {
    if Look(first).Success? then Look(first).value
    else if Look(second).Success? then Look(second).value
    else None
  }

  // The blanks that are stripped.
  predicate Padding(pad: string) {
    forall i :: 0 <= i < |pad| ==> pad[i] in {' ', '\t', '\n', '\r', 11 as char, 12 as char}
  }

  lemma {:induction false} StripsLeft(pad: string, s: string)
    requires Padding(pad) && (s == "" || s[0] == '{')
    ensures StripLeft(pad + s) == s
  {
    if pad == "" {
      assert pad + s == s;
    } else {
      assert (pad + s)[1..] == pad[1..] + s;
      StripsLeft(pad[1..], s);
    }
  }

  lemma {:induction false} StripsRight(s: string, pad: string)
    requires Padding(pad) && (s == "" || s[|s| - 1] == '}')
    ensures StripRight(s + pad) == s
    decreases |pad|
  {
    if pad == "" {
      assert s + pad == s;
    } else {
      assert (s + pad)[..|s + pad| - 1] == s + pad[..|pad| - 1];
      StripsRight(s, pad[..|pad| - 1]);
    }
  }

  // A file of blanks holds no record, and blanks around one are nothing to it.
  lemma PaddingIsNothing(before: string, s: string, after: string)
    requires Padding(before) && Padding(after) && (s == "" || ObjectText(s))
    ensures Look(Some(before + s + after)) == Success(if s == "" then None else Some(s))
  {
    if s == "" {
      StripsLeft(before + after, "");
      assert before + s + after == before + after + "";
    } else {
      ObjectCloses(s);
      NotEmpty(s);
      StripsLeftOf(before, s, after);
      StripsRight(s, after);
    }
  }

  lemma {:induction false} StripsLeftOf(before: string, s: string, after: string)
    requires Padding(before) && s != "" && s[0] == '{'
    ensures StripLeft(before + s + after) == s + after
  {
    StripsLeft(before, s + after);
    assert before + s + after == before + (s + after);
  }

  // Looks twice, and gives up on a file that parses neither time.
  method Read(looks: seq<Option<string>>) returns (record: Option<string>)
    requires |looks| == 2
    ensures record == Recorded(looks[0], looks[1])
  {
    for i := 0 to 2
      invariant forall k :: 0 <= k < i ==> Look(looks[k]).Failure?
    {
      var look := Look(looks[i]);
      if look.Success? {
        return look.value;
      }
    }
    return None;
  }

  lemma LookAtFile(steps: seq<Step>)
    requires WritesObjects(steps)
    ensures var d := AfterAll(steps);
            Look(Some(d.content)) == if Torn(d) then Failure(()) else Success(d.latest)
  {
    hide ObjectText, IsJson;
    var d := AfterAll(steps);
    FileIsRecordAndTail(steps);
    TornIffInvalid(steps);
    if d.latest.Some? {
      NotEmpty(d.latest.value);
      assert d.content[..|d.latest.value|][0] == d.content[0];
    }
  }

  // Whatever the writer does meanwhile, what a read returns is a record as it
  // was written - the one in force when it looked - or none; and none only
  // where there is none yet, or where both its looks fell inside a write.
  lemma ReadIsWhole(before: seq<Step>, between: seq<Step>)
    requires WritesObjects(before + between)
    ensures var first, second := AfterAll(before), AfterAll(before + between);
            Recorded(Some(first.content), Some(second.content))
            == if !Torn(first) then first.latest else if !Torn(second) then second.latest else None
  {
    hide ObjectText, Look, Torn, AfterAll;
    Prefix(before, between);
    LookAtFile(before);
    LookAtFile(before + between);
  }

  lemma Prefix(before: seq<Step>, between: seq<Step>)
    requires WritesObjects(before + between)
    ensures WritesObjects(before)
  {
    hide ObjectText;
    forall i | 0 <= i < |before| && before[i].Overwrite?
      ensures ObjectText(before[i].text)
    {
      assert (before + between)[i] == before[i];
    }
  }
}
