/** Two values print to the same canonical text exactly when they mean the same JSON data. */
module JsonLaws {
  import opened Tables
  import opened Json

  // ---------------------------------------------------------------- strings: the parser undoes the escaping

  lemma HexRoundTrip(n: int)
    requires 0 <= n < 16
    ensures HexValue(HexDigit(n)) == n
  {
  }

  lemma HexDigits(c: CodeUnit)
    ensures c / 0x1000 < 16
    ensures (c / 0x1000) * 0x1000 + (c / 0x100 % 0x10) * 0x100 + (c / 0x10 % 0x10) * 0x10 + c % 0x10 == c
  {
  }

  // a reverse solidus and what is read after it
  lemma EscapedParses(c: CodeUnit, escape: JsString, t: JsString)
    requires escape != [] && ParseEscape(escape + t) == Ok(c, t)
    ensures ParseString([BACKSLASH] + (escape + t)) == Prefixed(c, ParseString(t))
  {
    hide ParseEscape;
    assert ([BACKSLASH] + (escape + t))[1..] == escape + t;
  }

  lemma ShortEscapeParses(c: CodeUnit, t: JsString)
    requires |EscapeUnit(c)| == 2
    ensures ParseString(EscapeUnit(c) + t) == Prefixed(c, ParseString(t))
  {
    hide HexDigit, HexValue, ParseString;
    var letter := EscapeUnit(c)[1..];
    assert letter == [EscapeUnit(c)[1]] && (letter + t)[1..] == t;
    assert EscapeUnit(c) + t == [BACKSLASH] + (letter + t);
    EscapedParses(c, letter, t);
  }

  // four hexadecimal digits stand for their code unit
  lemma HexEscapeParses(a: int, b: int, c: int, d: int, t: JsString)
    requires 0 <= a < 16 && 0 <= b < 16 && 0 <= c < 16 && 0 <= d < 16
    ensures ParseEscape([LETTER_U, HexDigit(a), HexDigit(b), HexDigit(c), HexDigit(d)] + t)
            == Ok(a * 0x1000 + b * 0x100 + c * 0x10 + d, t)
  {
    HexRoundTrip(a);
    HexRoundTrip(b);
    HexRoundTrip(c);
    HexRoundTrip(d);
    hide HexDigit, HexValue;
    var u := [LETTER_U, HexDigit(a), HexDigit(b), HexDigit(c), HexDigit(d)] + t;
    assert u[5..] == t;
  }

  lemma LongEscapeParses(c: CodeUnit, t: JsString)
    requires |EscapeUnit(c)| > 2
    ensures ParseString(EscapeUnit(c) + t) == Prefixed(c, ParseString(t))
  {
    hide HexDigit, HexValue, ParseEscape, ParseString;
    HexDigits(c);
    HexEscapeParses(c / 0x1000, c / 0x100 % 0x10, c / 0x10 % 0x10, c % 0x10, t);
    var digits := [LETTER_U, HexDigit(c / 0x1000), HexDigit(c / 0x100 % 0x10), HexDigit(c / 0x10 % 0x10),
                   HexDigit(c % 0x10)];
    assert EscapeUnit(c) + t == [BACKSLASH] + (digits + t);
    EscapedParses(c, digits, t);
  }

  lemma PlainOrEscaped(c: CodeUnit)
    ensures |EscapeUnit(c)| == 1 ==> EscapeUnit(c) == [c] && c != QUOTE && c != BACKSLASH
    ensures |EscapeUnit(c)| >= 1
  {
    hide HexDigit;
  }

  lemma EscapeUnitParses(c: CodeUnit, t: JsString)
    ensures ParseString(EscapeUnit(c) + t) == Prefixed(c, ParseString(t))
  {
    PlainOrEscaped(c);
    hide EscapeUnit, ParseString;
    if |EscapeUnit(c)| == 1 {
      PlainUnitParses(c, t);
    } else if |EscapeUnit(c)| == 2 {
      ShortEscapeParses(c, t);
    } else {
      LongEscapeParses(c, t);
    }
  }

  lemma PlainUnitParses(c: CodeUnit, t: JsString)
    requires c != QUOTE && c != BACKSLASH
    ensures ParseString([c] + t) == Prefixed(c, ParseString(t))
  {
    assert ([c] + t)[1..] == t;
  }

  lemma HeadParses(s: JsString, second: bool, body: JsString, tail: JsString, rest: JsString)
    requires s != [] && (second ==> IsLow(s[0]))
    requires ParseString(body + tail) == Ok(s[1..], rest)
    ensures ParseString(EscapeHead(s, second) + body + tail) == Ok(s, rest)
  {
    var more := body + tail;
    Reassociate(EscapeHead(s, second), body, tail);
    assert [s[0]] + s[1..] == s;
    if second || StartsPair(s) {
      PlainUnitParses(s[0], more);
    } else {
      EscapeUnitParses(s[0], more);
    }
  }

  lemma Reassociate(a: JsString, b: JsString, c: JsString)
    ensures a + b + c == a + (b + c)
  {
  }

  lemma Reassociate5(a: JsString, b: JsString, c: JsString, d: JsString, e: JsString)
    ensures a + (b + c) + d + e == a + (b + (c + (d + e)))
  {
  }

  lemma {:induction false} EscapeParses(s: JsString, second: bool, tail: JsString)
    requires tail != [] && tail[0] == QUOTE
    requires second ==> s != [] && IsLow(s[0])
    ensures ParseString(Escape(s, second) + tail) == Ok(s, tail[1..])
  {
    if s == [] {
      assert Escape(s, second) + tail == tail;
    } else {
      var next := !second && StartsPair(s);
      EscapeParses(s[1..], next, tail);
      HeadParses(s, second, Escape(s[1..], next), tail, tail[1..]);
    }
  }

  // where the body of a bracketed text starts and ends
  lemma Enclosed(open: CodeUnit, body: JsString, close: CodeUnit, rest: JsString)
    ensures [open] + body + [close] + rest == [open] + (body + ([close] + rest))
    ensures ([open] + body + [close] + rest)[1..] == body + ([close] + rest)
    ensures ([close] + rest)[1..] == rest
  {
  }

  lemma QuoteParses(s: JsString, rest: JsString)
    ensures ParseString((Quote(s) + rest)[1..]) == Ok(s, rest)
  {
    Enclosed(QUOTE, Escape(s, false), QUOTE, rest);
    EscapeParses(s, false, [QUOTE] + rest);
  }

  // The printed form of a string is well-formed UTF-16, so encoding it as UTF-8 for hashing loses nothing.
  predicate WellFormed(t: JsString) {
    t == [] ||
    (if IsHigh(t[0]) then |t| >= 2 && IsLow(t[1]) && WellFormed(t[2..])
     else !IsLow(t[0]) && WellFormed(t[1..]))
  }

  lemma {:induction false} WellFormedConcat(a: JsString, b: JsString)
    requires WellFormed(a) && WellFormed(b)
    ensures WellFormed(a + b)
  {
    hide IsHigh, IsLow;
    if a == [] {
      assert a + b == b;
    } else if IsHigh(a[0]) {
      assert (a + b)[2..] == a[2..] + b;
      WellFormedConcat(a[2..], b);
    } else {
      assert (a + b)[1..] == a[1..] + b;
      WellFormedConcat(a[1..], b);
    }
  }

  lemma {:induction false} WellFormedPlain(t: JsString)
    requires forall i | 0 <= i < |t| :: !IsHigh(t[i]) && !IsLow(t[i])
    ensures WellFormed(t)
  {
    if t != [] {
      WellFormedPlain(t[1..]);
    }
  }

  lemma {:induction false} EscapeWellFormed(s: JsString)
    ensures WellFormed(Escape(s, false))
  {
    if s == [] {
    } else if StartsPair(s) {
      EscapeWellFormed(s[2..]);
      assert s[1..][1..] == s[2..];
      assert Escape(s, false) == [s[0]] + ([s[1]] + Escape(s[2..], false));
      assert Escape(s, false)[2..] == Escape(s[2..], false);
    } else {
      EscapeWellFormed(s[1..]);
      WellFormedPlain(EscapeUnit(s[0]));
      WellFormedConcat(EscapeUnit(s[0]), Escape(s[1..], false));
    }
  }

  lemma QuoteWellFormed(s: JsString)
    ensures WellFormed(Quote(s))
  {
    EscapeWellFormed(s);
    WellFormedPlain([QUOTE]);
    WellFormedConcat([QUOTE], Escape(s, false));
    WellFormedConcat([QUOTE] + Escape(s, false), [QUOTE]);
  }

  lemma {:induction false} PrintWellFormed(v: Value)
    requires Valid(v)
    ensures WellFormed(Print(v))
    decreases v, 1
  {
    match v {
      case Str(s) => QuoteWellFormed(s);
      case Arr(items) =>
        PrintItemsWellFormed(items, true);
        WellFormedPlain([OPEN_BRACKET]);
        WellFormedPlain([CLOSE_BRACKET]);
        WellFormedConcat([OPEN_BRACKET], PrintItems(items, true));
        WellFormedConcat([OPEN_BRACKET] + PrintItems(items, true), [CLOSE_BRACKET]);
      case Obj(fields) =>
        PrintFieldsWellFormed(fields, true);
        WellFormedPlain([OPEN_BRACE]);
        WellFormedPlain([CLOSE_BRACE]);
        WellFormedConcat([OPEN_BRACE], PrintFields(fields, true));
        WellFormedConcat([OPEN_BRACE] + PrintFields(fields, true), [CLOSE_BRACE]);
      case _ => WellFormedPlain(Print(v));
    }
  }

  lemma {:induction false} PrintItemsWellFormed(items: seq<Value>, first: bool)
    requires forall i | 0 <= i < |items| :: Valid(items[i])
    ensures WellFormed(PrintItems(items, first))
    decreases items, 0
  {
    if items != [] {
      PrintWellFormed(items[0]);
      PrintItemsWellFormed(items[1..], false);
      WellFormedPlain(Separator(first));
      WellFormedConcat(Separator(first), Print(items[0]));
      WellFormedConcat(Separator(first) + Print(items[0]), PrintItems(items[1..], false));
    }
  }

  lemma {:induction false} PrintFieldsWellFormed(fields: seq<Field>, first: bool)
    requires forall i | 0 <= i < |fields| :: Valid(fields[i].value)
    ensures WellFormed(PrintFields(fields, first))
    decreases fields, 0
  {
    if fields != [] {
      var f := fields[0];
      PrintFieldsWellFormed(fields[1..], first);
      PrintFieldsWellFormed(fields[1..], false);
      PrintWellFormed(f.value);
      QuoteWellFormed(f.key);
      WellFormedPlain([COLON]);
      WellFormedPlain(Separator(first));
      WellFormedConcat(Quote(f.key), [COLON]);
      WellFormedConcat(Quote(f.key) + [COLON], Print(f.value));
      WellFormedConcat(Separator(first), PrintField(f));
      WellFormedConcat(Separator(first) + PrintField(f), PrintFields(fields[1..], false));
    }
  }

  // ---------------------------------------------------------------- the parser undoes the printer

  // no object at any depth has an own "__proto__" key
  predicate NoProto(v: Value) {
    match v
    case Arr(items) => forall i | 0 <= i < |items| :: NoProto(items[i])
    case Obj(fields) => forall i | 0 <= i < |fields| :: fields[i].key != PROTO_KEY && NoProto(fields[i].value)
    case _ => true
  }

  // what may follow a value
  predicate Ends(rest: JsString) {
    rest == [] || rest[0] == COMMA || rest[0] == CLOSE_BRACKET || rest[0] == CLOSE_BRACE
  }

  lemma {:induction false} NumberRunStops(text: JsString, rest: JsString)
    requires forall i | 0 <= i < |text| :: IsNumberUnit(text[i])
    requires Ends(rest)
    ensures NumberRun(text + rest) == |text|
  {
    if text == [] {
      assert text + rest == rest;
    } else {
      NumberRunStops(text[1..], rest);
      assert (text + rest)[1..] == text[1..] + rest;
    }
  }

  lemma PrintStarts(v: Value)
    requires Valid(v)
    ensures Print(v) != []
    ensures Print(v)[0] != COMMA && Print(v)[0] != CLOSE_BRACKET && Print(v)[0] != CLOSE_BRACE
  {
  }

  lemma LiteralParses(text: JsString, rest: JsString)
    requires text == NULL_TEXT || text == TRUE_TEXT || text == FALSE_TEXT
    ensures ParseValue(text + rest)
         == Ok(if text == NULL_TEXT then DNull else if text == TRUE_TEXT then DBool(true) else DBool(false), rest)
  {
    var t := text + rest;
    assert t[0] == text[0];
    assert NULL_TEXT[0] == 0x6e && TRUE_TEXT[0] == 0x74 && FALSE_TEXT[0] == 0x66;
    assert text <= t && t[|text|..] == rest;
  }

  lemma NumberParses(text: JsString, rest: JsString)
    requires IsNumberText(text) && Ends(rest)
    ensures ParseValue(text + rest) == Ok(DNum(text), rest)
  {
    var t := text + rest;
    NumberRunStops(text, rest);
    assert t[0] == text[0] && IsNumberUnit(text[0]);
    assert t[..|text|] == text && t[|text|..] == rest;
  }

  lemma StringParses(s: JsString, rest: JsString)
    ensures ParseValue(Quote(s) + rest) == Ok(DStr(s), rest)
  {
    QuoteParses(s, rest);
    assert (Quote(s) + rest)[0] == QUOTE;
  }

  lemma BracketParses(u: JsString, items: seq<Data>, rest: JsString)
    requires ParseItems(u, true) == Ok(items, rest)
    ensures ParseValue([OPEN_BRACKET] + u) == Ok(DArr(items), rest)
  {
    var t := [OPEN_BRACKET] + u;
    assert t[0] == OPEN_BRACKET && t[1..] == u;
    assert NULL_TEXT[0] == 0x6e && TRUE_TEXT[0] == 0x74 && FALSE_TEXT[0] == 0x66;
  }

  lemma ArrayParses(body: JsString, items: seq<Data>, rest: JsString)
    requires ParseItems(body + ([CLOSE_BRACKET] + rest), true) == Ok(items, rest)
    ensures ParseValue([OPEN_BRACKET] + body + [CLOSE_BRACKET] + rest) == Ok(DArr(items), rest)
  {
    var u := body + ([CLOSE_BRACKET] + rest);
    Enclosed(OPEN_BRACKET, body, CLOSE_BRACKET, rest);
    BracketParses(u, items, rest);
  }

  lemma BraceParses(u: JsString, members: map<JsString, Data>, rest: JsString)
    requires ParseMembers(u, true) == Ok(members, rest)
    ensures ParseValue([OPEN_BRACE] + u) == Ok(DObj(members), rest)
  {
    var t := [OPEN_BRACE] + u;
    assert t[0] == OPEN_BRACE && t[1..] == u;
    assert NULL_TEXT[0] == 0x6e && TRUE_TEXT[0] == 0x74 && FALSE_TEXT[0] == 0x66;
  }

  lemma ObjectParses(body: JsString, members: map<JsString, Data>, rest: JsString)
    requires ParseMembers(body + ([CLOSE_BRACE] + rest), true) == Ok(members, rest)
    ensures ParseValue([OPEN_BRACE] + body + [CLOSE_BRACE] + rest) == Ok(DObj(members), rest)
  {
    var u := body + ([CLOSE_BRACE] + rest);
    Enclosed(OPEN_BRACE, body, CLOSE_BRACE, rest);
    BraceParses(u, members, rest);
  }

  lemma KeyParses(key: JsString, w: JsString)
    ensures ParseKey(Quote(key) + [COLON] + w) == Ok(key, w)
  {
    var t := Quote(key) + ([COLON] + w);
    QuoteParses(key, [COLON] + w);
    assert Quote(key) + [COLON] + w == t && t[0] == QUOTE;
    assert ([COLON] + w)[1..] == w;
  }

  lemma SeparatorParses(u: JsString, first: bool)
    ensures AfterSeparator(Separator(first) + u, first) == Ok((), u)
  {
    if first { assert Separator(first) + u == u; } else { assert (Separator(first) + u)[1..] == u; }
  }

  lemma MemberParses(key: JsString, text: JsString, d: Data, tail: JsString, m: map<JsString, Data>, rest: JsString,
                     first: bool)
    requires ParseValue(text + tail) == Ok(d, tail)
    requires ParseMembers(tail, false) == Ok(m, rest)
    ensures ParseMembers(Separator(first) + (Quote(key) + [COLON] + (text + tail)), first) == Ok(m[key := d], rest)
  {
    var u := Quote(key) + [COLON] + (text + tail);
    var t := Separator(first) + u;
    assert u[0] == QUOTE;
    assert t[0] != CLOSE_BRACE by { if first { assert t[0] == u[0]; } else { assert t[0] == COMMA; } }
    SeparatorParses(u, first);
    KeyParses(key, text + tail);
  }

  lemma {:induction false} FieldsTailEnds(fields: seq<Field>, end: JsString)
    requires end != [] && end[0] == CLOSE_BRACE
    ensures Ends(PrintFields(fields, false) + end)
  {
    if fields != [] {
      FieldsTailEnds(fields[1..], end);
    }
  }

  lemma {:induction false} PrintParses(v: Value, rest: JsString)
    requires Valid(v) && NoProto(v) && Ends(rest)
    ensures ParseValue(Print(v) + rest) == Ok(if v == Undefined then DNull else Denote(v), rest)
    decreases v, 1
  {
    match v {
      case Num(text) => NumberParses(text, rest);
      case Str(s) => StringParses(s, rest);
      case Arr(items) =>
        ItemsParse(items, true, rest);
        ArrayParses(PrintItems(items, true), DenoteItems(items), rest);
      case Obj(fields) =>
        FieldsParse(fields, true, rest);
        ObjectParses(PrintFields(fields, true), DenoteFields(fields), rest);
      case _ => LiteralParses(Print(v), rest);
    }
  }

  lemma ItemParses(text: JsString, d: Data, tail: JsString, ds: seq<Data>, rest: JsString, first: bool)
    requires text != [] && text[0] != COMMA && text[0] != CLOSE_BRACKET
    requires ParseValue(text + tail) == Ok(d, tail)
    requires ParseItems(tail, false) == Ok(ds, rest)
    ensures ParseItems(Separator(first) + (text + tail), first) == Ok([d] + ds, rest)
  {
    var u := text + tail;
    var t := Separator(first) + u;
    assert t[0] != CLOSE_BRACKET by { if first { assert t[0] == text[0]; } else { assert t[0] == COMMA; } }
    SeparatorParses(u, first);
  }

  lemma ItemShape(items: seq<Value>, first: bool, end: JsString)
    requires items != []
    ensures PrintItems(items, first) + end
         == Separator(first) + (Print(items[0]) + (PrintItems(items[1..], false) + end))
  {
    Reassociate5(Separator(first), [], Print(items[0]), PrintItems(items[1..], false), end);
    assert [] + Print(items[0]) == Print(items[0]);
    assert [] + (Print(items[0]) + (PrintItems(items[1..], false) + end))
           == Print(items[0]) + (PrintItems(items[1..], false) + end);
  }

  lemma {:induction false} ItemsParse(items: seq<Value>, first: bool, rest: JsString)
    requires forall i | 0 <= i < |items| :: Valid(items[i]) && NoProto(items[i])
    ensures ParseItems(PrintItems(items, first) + ([CLOSE_BRACKET] + rest), first) == Ok(DenoteItems(items), rest)
    decreases items, 0
  {
    var end := [CLOSE_BRACKET] + rest;
    if items == [] {
      assert PrintItems(items, first) + end == end && end[1..] == rest;
    } else {
      var tail := PrintItems(items[1..], false) + end;
      var d := if items[0] == Undefined then DNull else Denote(items[0]);
      PrintStarts(items[0]);
      PrintParses(items[0], tail);
      ItemsParse(items[1..], false, rest);
      ItemParses(Print(items[0]), d, tail, DenoteItems(items[1..]), rest, first);
      ItemShape(items, first, end);
    }
  }

  lemma FieldShape(fields: seq<Field>, first: bool, end: JsString)
    requires fields != [] && fields[0].value != Undefined
    ensures PrintFields(fields, first) + end
         == Separator(first)
           + (Quote(fields[0].key) + [COLON] + (Print(fields[0].value) + (PrintFields(fields[1..], false) + end)))
  {
    var f := fields[0];
    Reassociate5(Separator(first), Quote(f.key) + [COLON], Print(f.value), PrintFields(fields[1..], false), end);
  }

  lemma {:induction false} FieldsParse(fields: seq<Field>, first: bool, rest: JsString)
    requires DistinctKeys(fields)
    requires forall i | 0 <= i < |fields| ::
               Valid(fields[i].value) && NoProto(fields[i].value) && fields[i].key != PROTO_KEY
    ensures ParseMembers(PrintFields(fields, first) + ([CLOSE_BRACE] + rest), first) == Ok(DenoteFields(fields), rest)
    decreases fields, 0
  {
    var end := [CLOSE_BRACE] + rest;
    var t := PrintFields(fields, first) + end;
    if fields == [] {
      assert t == end && end[1..] == rest;
    } else if fields[0].value == Undefined {
      FieldsParse(fields[1..], first, rest);
    } else {
      var f := fields[0];
      var tail := PrintFields(fields[1..], false) + end;
      FieldsTailEnds(fields[1..], end);
      PrintParses(f.value, tail);
      FieldsParse(fields[1..], false, rest);
      MemberParses(f.key, Print(f.value), Denote(f.value), tail, DenoteFields(fields[1..]), rest, first);
      FieldShape(fields, first, end);
    }
  }

  // ---------------------------------------------------------------- what sorting keeps

  lemma {:induction false} DenoteFieldsFind(fields: seq<Field>, i: nat)
    requires DistinctKeys(fields) && i < |fields|
    ensures var k, m := fields[i].key, DenoteFields(fields);
            if Kept(fields[i]) then k in m && m[k] == Denote(fields[i].value) else k !in m
  {
    DenoteFieldsKeys(fields[1..]);
    if i > 0 {
      DenoteFieldsFind(fields[1..], i - 1);
    }
  }

  lemma {:induction false} DenoteFieldsKeys(fields: seq<Field>)
    ensures forall k | k in DenoteFields(fields) ::
              exists i :: 0 <= i < |fields| && fields[i].key == k && Kept(fields[i])
  {
    if fields != [] {
      DenoteFieldsKeys(fields[1..]);
      forall k | k in DenoteFields(fields)
        ensures exists i :: 0 <= i < |fields| && fields[i].key == k && Kept(fields[i])
      {
        if k in DenoteFields(fields[1..]) {
          var j :| 0 <= j < |fields[1..]| && fields[1..][j].key == k && Kept(fields[1..][j]);
          assert fields[j + 1].key == k;
        } else {
          assert fields[0].key == k;
        }
      }
    }
  }

  // every kept field of `a` is matched in `b`
  ghost predicate Covers(a: seq<Field>, b: seq<Field>) {
    forall i | 0 <= i < |a| && Kept(a[i]) ::
      exists j :: 0 <= j < |b| && b[j].key == a[i].key && Kept(b[j]) && Denote(b[j].value) == Denote(a[i].value)
  }

  lemma DenoteFieldsEqual(a: seq<Field>, b: seq<Field>)
    requires DistinctKeys(a) && DistinctKeys(b) && Covers(a, b) && Covers(b, a)
    ensures DenoteFields(a) == DenoteFields(b)
  {
    DenoteFieldsIncluded(a, b);
    DenoteFieldsIncluded(b, a);
  }

  lemma DenoteFieldsIncluded(a: seq<Field>, b: seq<Field>)
    requires DistinctKeys(a) && DistinctKeys(b) && Covers(a, b)
    ensures forall k | k in DenoteFields(a) :: k in DenoteFields(b) && DenoteFields(b)[k] == DenoteFields(a)[k]
  {
    DenoteFieldsKeys(a);
    forall k | k in DenoteFields(a) ensures k in DenoteFields(b) && DenoteFields(b)[k] == DenoteFields(a)[k] {
      var i :| 0 <= i < |a| && a[i].key == k && Kept(a[i]);
      DenoteFieldsFind(a, i);
      var j :| 0 <= j < |b| && b[j].key == a[i].key && Kept(b[j]) && Denote(b[j].value) == Denote(a[i].value);
      DenoteFieldsFind(b, j);
    }
  }

  // ---------------------------------------------------------------- the text in the terms of ECMA-262

  // the texts with a comma between each two
  function Commas(texts: seq<JsString>): JsString {
    if texts == [] then []
    else if |texts| == 1 then texts[0]
    else texts[0] + [0x2c] + Commas(texts[1..])
  }

  function ItemTexts(items: seq<Value>): seq<JsString> {
    if items == [] then [] else [Print(items[0])] + ItemTexts(items[1..])
  }

  // the members that are not undefined, each as "key":value
  function MemberTexts(fields: seq<Field>): seq<JsString> {
    if fields == [] then []
    else if fields[0].value == Undefined then MemberTexts(fields[1..])
    else [Quote(fields[0].key) + [0x3a] + Print(fields[0].value)] + MemberTexts(fields[1..])
  }

  lemma CommasFirst(text: JsString, rest: seq<JsString>)
    ensures Commas([text] + rest) == text + if rest == [] then [] else [0x2c] + Commas(rest)
  {
    assert ([text] + rest)[1..] == rest;
  }

  lemma {:induction false} ItemsJoined(items: seq<Value>, first: bool)
    ensures PrintItems(items, first) == (if items == [] || first then [] else [0x2c]) + Commas(ItemTexts(items))
  {
    if items != [] {
      hide Print;
      ItemsJoined(items[1..], false);
      CommasFirst(Print(items[0]), ItemTexts(items[1..]));
    }
  }

  lemma {:induction false} MembersJoined(fields: seq<Field>, first: bool)
    ensures PrintFields(fields, first)
         == (if MemberTexts(fields) == [] || first then [] else [0x2c]) + Commas(MemberTexts(fields))
  {
    if fields != [] {
      hide Print, Quote;
      MembersJoined(fields[1..], first);
      MembersJoined(fields[1..], false);
      CommasFirst(Quote(fields[0].key) + [0x3a] + Print(fields[0].value), MemberTexts(fields[1..]));
    }
  }

  /** SerializeJSONArray and SerializeJSONObject without a gap: brackets and commas and no white space. */
  lemma PrintJoins(items: seq<Value>, fields: seq<Field>, s: JsString)
    ensures Print(Arr(items)) == [0x5b] + Commas(ItemTexts(items)) + [0x5d]
    ensures Print(Obj(fields)) == [0x7b] + Commas(MemberTexts(fields)) + [0x7d]
    ensures Print(Str(s)) == [0x22] + Escape(s, false) + [0x22]
    ensures Print(Null) == Print(Undefined) == Print(NonFinite) == [0x6e, 0x75, 0x6c, 0x6c]
    ensures Print(Bool(true)) == [0x74, 0x72, 0x75, 0x65] && Print(Bool(false)) == [0x66, 0x61, 0x6c, 0x73, 0x65]
  {
    hide PrintItems, PrintFields, Commas, ItemTexts, MemberTexts, Escape;
    ItemsJoined(items, true);
    MembersJoined(fields, true);
  }

  // the value of a lower-case hexadecimal digit
  function LowerHex(c: CodeUnit): int {
    if 0x30 <= c <= 0x39 then c - 0x30 else if 0x61 <= c <= 0x66 then c - 0x57 else -1
  }

  // "\u" and the unit in four lower-case hexadecimal digits
  ghost predicate IsUnicodeEscape(t: JsString, c: CodeUnit) {
    && |t| == 6 && t[0] == 0x5c && t[1] == 0x75
    && (forall i | 2 <= i < 6 :: LowerHex(t[i]) >= 0)
    && LowerHex(t[2]) * 4096 + LowerHex(t[3]) * 256 + LowerHex(t[4]) * 16 + LowerHex(t[5]) == c
  }

  ghost predicate EscapedAs(c: CodeUnit, own: JsString) {
    if c == 0x08 then own == [0x5c, 0x62]
    else if c == 0x09 then own == [0x5c, 0x74]
    else if c == 0x0a then own == [0x5c, 0x6e]
    else if c == 0x0c then own == [0x5c, 0x66]
    else if c == 0x0d then own == [0x5c, 0x72]
    else if c == 0x22 || c == 0x5c then own == [0x5c, c]
    else if c < 0x20 || 0xd800 <= c <= 0xdfff then IsUnicodeEscape(own, c)
    else own == [c]
  }

  lemma LowerHexOf(n: int)
    requires 0 <= n < 16
    ensures LowerHex(HexDigit(n)) == n
  {
  }

  lemma UnicodeEscape(c: CodeUnit)
    ensures var digits := [HexDigit(c / 0x1000), HexDigit(c / 0x100 % 0x10), HexDigit(c / 0x10 % 0x10),
                           HexDigit(c % 0x10)];
            IsUnicodeEscape([BACKSLASH, LETTER_U] + digits, c)
  {
    HexDigits(c);
    LowerHexOf(c / 0x1000);
    LowerHexOf(c / 0x100 % 0x10);
    LowerHexOf(c / 0x10 % 0x10);
    LowerHexOf(c % 0x10);
    hide HexDigit, LowerHex;
  }

  lemma UnitEscapedAs(c: CodeUnit)
    ensures EscapedAs(c, EscapeUnit(c))
  {
    hide HexDigit, LowerHex, IsUnicodeEscape;
    UnicodeEscape(c);
    if |EscapeUnit(c)| > 2 {
      assert EscapeUnit(c) == [BACKSLASH, LETTER_U] + EscapeUnit(c)[2..];
    }
  }

  /** QuoteJSONString, unit by unit. */
  lemma EscapesAre(s: JsString)
    requires s != []
    ensures var c, rest := s[0], s[1..];
            var pair := 0xd800 <= c <= 0xdbff && rest != [] && 0xdc00 <= rest[0] <= 0xdfff;
            && (pair ==> Escape(s, false) == [c, rest[0]] + Escape(rest[1..], false))
            && (!pair ==> exists own :: Escape(s, false) == own + Escape(rest, false) && EscapedAs(c, own))
  {
    var c, rest := s[0], s[1..];
    if 0xd800 <= c <= 0xdbff && rest != [] && 0xdc00 <= rest[0] <= 0xdfff {
      assert Escape(rest, true) == [rest[0]] + Escape(rest[1..], false);
    } else {
      UnitEscapedAs(c);
      hide EscapeUnit, EscapedAs;
      assert Escape(s, false) == EscapeUnit(c) + Escape(rest, false);
    }
  }

  // ---------------------------------------------------------------- sorting keeps the meaning

  // objects list their keys in canonical order, at every depth
  ghost predicate Canonical(v: Value) {
    match v
    case Arr(items) => forall i | 0 <= i < |items| :: Canonical(items[i])
    case Obj(fields) => Ordered(fields) && forall i | 0 <= i < |fields| :: Canonical(fields[i].value)
    case _ => true
  }

  // What is known of a value once sortKeysDeep has returned it.
  ghost predicate SortedWell(v: Value) {
    var s := Sorted(v);
    Valid(s) && NoProto(s) && Canonical(s) && Denote(s) == Denote(v) && (s == Undefined <==> v == Undefined)
  }

  lemma {:induction false} SortedKeepsMeaning(v: Value)
    requires Valid(v)
    ensures SortedWell(v)
    decreases v, 1
  {
    match v {
      case Arr(items) =>
        forall i | 0 <= i < |items| ensures SortedWell(items[i]) {
          SortedKeepsMeaning(items[i]);
        }
        SortedItemsKeepMeaning(items);
      case Obj(fields) =>
        forall i | 0 <= i < |fields| ensures SortedWell(fields[i].value) {
          SortedKeepsMeaning(fields[i].value);
        }
        SortedFieldsKeepMeaning(fields);
      case _ =>
    }
  }

  lemma {:induction false} SortedItemsKeepMeaning(items: seq<Value>)
    requires forall i | 0 <= i < |items| :: Valid(items[i])
    ensures DenoteItems(SortedItems(items)) == DenoteItems(items)
    decreases items, 0
  {
    if items != [] {
      SortedKeepsMeaning(items[0]);
      SortedItemsKeepMeaning(items[1..]);
      assert SortedItems(items)[1..] == SortedItems(items[1..]);
    }
  }

  lemma FilledCovers(fields: seq<Field>)
    requires DistinctKeys(fields)
    requires forall i | 0 <= i < |fields| :: SortedWell(fields[i].value)
    ensures var filled := Assemble(SortByKey(SortedValues(fields)));
            Covers(fields, filled) && Covers(filled, fields)
  {
    var mapped := SortedValues(fields);
    var filled := Assemble(SortByKey(mapped));
    FilledFields(fields);
    forall i | 0 <= i < |fields| && Kept(fields[i])
      ensures exists j :: 0 <= j < |filled| && filled[j].key == fields[i].key && Kept(filled[j])
                          && Denote(filled[j].value) == Denote(fields[i].value)
    {
      assert SortedWell(fields[i].value);
      assert mapped[i] in mapped;
      var j :| 0 <= j < |filled| && filled[j] == mapped[i];
    }
    FilledCovered(fields, filled);
  }

  lemma FilledCovered(fields: seq<Field>, filled: seq<Field>)
    requires DistinctKeys(fields)
    requires forall i | 0 <= i < |fields| :: SortedWell(fields[i].value)
    requires filled == Assemble(SortByKey(SortedValues(fields)))
    ensures Covers(filled, fields)
  {
    forall i | 0 <= i < |filled| && Kept(filled[i])
      ensures exists j :: 0 <= j < |fields| && fields[j].key == filled[i].key && Kept(fields[j])
                          && Denote(fields[j].value) == Denote(filled[i].value)
    {
      var j := FilledOrigin(fields, filled[i]);
      assert SortedWell(fields[j].value);
    }
  }

  lemma FilledWell(fields: seq<Field>)
    requires DistinctKeys(fields)
    requires forall i | 0 <= i < |fields| :: SortedWell(fields[i].value)
    ensures var r := Obj(Assemble(SortByKey(SortedValues(fields)))); Valid(r) && NoProto(r) && Canonical(r)
  {
    var filled := Assemble(SortByKey(SortedValues(fields)));
    FilledFields(fields);
    forall i | 0 <= i < |filled|
      ensures Valid(filled[i].value) && NoProto(filled[i].value) && Canonical(filled[i].value)
              && filled[i].key != PROTO_KEY
    {
      var j := FilledOrigin(fields, filled[i]);
      assert SortedWell(fields[j].value);
    }
  }

  lemma SortedFieldsKeepMeaning(fields: seq<Field>)
    requires DistinctKeys(fields)
    requires forall i | 0 <= i < |fields| :: SortedWell(fields[i].value)
    ensures SortedWell(Obj(fields))
  {
    hide Assemble, SortByKey, SortedValues, DenoteFields, Canonical, Covers, Ordered, Valid, NoProto;
    var filled := Assemble(SortByKey(SortedValues(fields)));
    FilledWell(fields);
    FilledFields(fields);
    FilledCovers(fields);
    DenoteFieldsEqual(fields, filled);
  }

  // ---------------------------------------------------------------- a canonical value prints by its meaning alone

  lemma {:induction false} CanonicalPrint(v: Value, w: Value)
    requires Valid(v) && NoProto(v) && Canonical(v) && Valid(w) && NoProto(w) && Canonical(w)
    requires v != Undefined && w != Undefined && Denote(v) == Denote(w)
    ensures Print(v) == Print(w)
    decreases v, 1
  {
    match v {
      case Arr(items) => CanonicalPrintItems(items, w.items, true);
      case Obj(fields) => CanonicalPrintFields(fields, w.fields, true);
      case _ =>
    }
  }

  lemma {:induction false} CanonicalPrintItems(a: seq<Value>, b: seq<Value>, first: bool)
    requires forall i | 0 <= i < |a| :: Valid(a[i]) && NoProto(a[i]) && Canonical(a[i])
    requires forall i | 0 <= i < |b| :: Valid(b[i]) && NoProto(b[i]) && Canonical(b[i])
    requires DenoteItems(a) == DenoteItems(b)
    ensures PrintItems(a, first) == PrintItems(b, first)
    decreases a, 0
  {
    if a != [] {
      assert DenoteItems(a)[0] == DenoteItems(b)[0] && DenoteItems(a)[1..] == DenoteItems(b)[1..];
      if a[0] != Undefined && b[0] != Undefined {
        CanonicalPrint(a[0], b[0]);
      }
      CanonicalPrintItems(a[1..], b[1..], false);
    }
  }

  // the least key comes first in both
  lemma SameHeads(a: seq<Field>, b: seq<Field>)
    requires Ordered(a) && Ordered(b) && a != [] && b != [] && Kept(a[0]) && Kept(b[0])
    requires DenoteFields(a) == DenoteFields(b)
    ensures a[0].key == b[0].key && Denote(a[0].value) == Denote(b[0].value)
    ensures DenoteFields(a[1..]) == DenoteFields(b[1..])
  {
    hide Denote, DenoteFields, Ordered, Precedes;
    HeadIsLeast(a);
    HeadIsLeast(b);
    PrecedesTotal(a[0].key, b[0].key);
    TailMeaning(a);
    TailMeaning(b);
  }

  lemma TailMeaning(fields: seq<Field>)
    requires fields != [] && Kept(fields[0]) && fields[0].key !in DenoteFields(fields[1..])
    ensures DenoteFields(fields[1..]) == DenoteFields(fields) - {fields[0].key}
  {
    hide Denote;
  }

  lemma {:induction false} CanonicalPrintFields(a: seq<Field>, b: seq<Field>, first: bool)
    requires Ordered(a) && Ordered(b)
    requires forall i | 0 <= i < |a| ::
               Valid(a[i].value) && NoProto(a[i].value) && Canonical(a[i].value) && a[i].key != PROTO_KEY
    requires forall i | 0 <= i < |b| ::
               Valid(b[i].value) && NoProto(b[i].value) && Canonical(b[i].value) && b[i].key != PROTO_KEY
    requires DenoteFields(a) == DenoteFields(b)
    ensures PrintFields(a, first) == PrintFields(b, first)
    decreases a, 0, |b|
  {
    if a != [] && a[0].value == Undefined {
      CanonicalPrintFields(a[1..], b, first);
    } else if b != [] && b[0].value == Undefined {
      CanonicalPrintFields(a, b[1..], first);
    } else if a == [] || b == [] {
      if a != [] { HeadIsLeast(a); }
      if b != [] { HeadIsLeast(b); }
    } else {
      SameHeads(a, b);
      CanonicalPrint(a[0].value, b[0].value);
      CanonicalPrintFields(a[1..], b[1..], false);
    }
  }

  lemma HeadIsLeast(fields: seq<Field>)
    requires Ordered(fields) && fields != [] && Kept(fields[0])
    ensures var k, m := fields[0].key, DenoteFields(fields);
            && k in m && m[k] == Denote(fields[0].value) && k !in DenoteFields(fields[1..])
            && forall other | other in m && other != k :: Precedes(k, other)
  {
    OrderedDistinct(fields);
    DenoteFieldsFind(fields, 0);
    DenoteFieldsKeys(fields);
    DenoteFieldsKeys(fields[1..]);
  }

  // ---------------------------------------------------------------- main results

  /** Parsing the canonical text gives back what the value means. */
  lemma CanonicalRoundTrip(v: Value)
    requires Valid(v) && v != Undefined
    ensures CanonicalJsonString(v).Some?
    ensures ParseValue(CanonicalJsonString(v).value) == Ok(Denote(v), [])
    ensures WellFormed(CanonicalJsonString(v).value)
  {
    SortedKeepsMeaning(v);
    PrintParses(Sorted(v), []);
    PrintWellFormed(Sorted(v));
    assert Print(Sorted(v)) + [] == Print(Sorted(v));
  }

  /** Equal canonical texts, exactly when equal up to object key order at every depth. */
  lemma CanonicalTextIffSameMeaning(v: Value, w: Value)
    requires Valid(v) && Valid(w)
    ensures CanonicalJsonString(v) == CanonicalJsonString(w) <==> Denote(v) == Denote(w)
  {
    if v != Undefined && w != Undefined {
      CanonicalRoundTrip(v);
      CanonicalRoundTrip(w);
      if Denote(v) == Denote(w) {
        SortedKeepsMeaning(v);
        SortedKeepsMeaning(w);
        CanonicalPrint(Sorted(v), Sorted(w));
      }
    }
  }

  // ---------------------------------------------------------------- values equal up to key order

  // values on which nothing is dropped or merged
  predicate Plain(v: Value) {
    match v
    case Undefined => false
    case NonFinite => false
    case Arr(items) => forall i | 0 <= i < |items| :: Plain(items[i])
    case Obj(fields) => forall i | 0 <= i < |fields| :: fields[i].key != PROTO_KEY && Plain(fields[i].value)
    case _ => true
  }

  ghost predicate SameUpToKeyOrder(v: Value, w: Value)
    decreases v
  {
    match (v, w)
    case (Arr(a), Arr(b)) => |a| == |b| && forall i | 0 <= i < |a| :: SameUpToKeyOrder(a[i], b[i])
    case (Obj(a), Obj(b)) =>
      && (forall i | 0 <= i < |a| :: HasSame(a[i], b))
      && (forall j | 0 <= j < |b| :: HasKey(b[j].key, a))
    case _ => v == w
  }

  ghost predicate HasSame(f: Field, fields: seq<Field>)
    decreases f
  {
    exists j :: 0 <= j < |fields| && fields[j].key == f.key && SameUpToKeyOrder(f.value, fields[j].value)
  }

  ghost predicate HasKey(key: JsString, fields: seq<Field>) {
    exists i :: 0 <= i < |fields| && fields[i].key == key
  }

  lemma {:induction false} SameIffSameMeaning(v: Value, w: Value)
    requires Valid(v) && Valid(w) && Plain(v) && Plain(w)
    ensures SameUpToKeyOrder(v, w) <==> Denote(v) == Denote(w)
    decreases v
  {
    if v.Arr? && w.Arr? {
      ItemsDenoteEach(v.items);
      ItemsDenoteEach(w.items);
      forall i | 0 <= i < |v.items| && i < |w.items|
        ensures SameUpToKeyOrder(v.items[i], w.items[i]) <==> Denote(v.items[i]) == Denote(w.items[i])
      {
        SameIffSameMeaning(v.items[i], w.items[i]);
      }
      if Denote(v) == Denote(w) {
        forall i | 0 <= i < |v.items| ensures SameUpToKeyOrder(v.items[i], w.items[i]) {
          assert DenoteItems(v.items)[i] == DenoteItems(w.items)[i];
        }
      }
    } else if v.Obj? && w.Obj? {
      forall i, j | 0 <= i < |v.fields| && 0 <= j < |w.fields|
        ensures SameUpToKeyOrder(v.fields[i].value, w.fields[j].value)
                <==> Denote(v.fields[i].value) == Denote(w.fields[j].value)
      {
        SameIffSameMeaning(v.fields[i].value, w.fields[j].value);
      }
      if Denote(v) == Denote(w) {
        SameMeaningSameFields(v.fields, w.fields);
      } else if SameUpToKeyOrder(v, w) {
        SameFieldsCover(v.fields, w.fields);
        DenoteFieldsEqual(v.fields, w.fields);
      }
    }
  }

  lemma {:induction false} ItemsDenoteEach(items: seq<Value>)
    requires forall i | 0 <= i < |items| :: Plain(items[i])
    ensures forall i | 0 <= i < |items| :: DenoteItems(items)[i] == Denote(items[i])
  {
    if items != [] {
      ItemsDenoteEach(items[1..]);
    }
  }

  // the two notions agree on every pair of member values
  ghost predicate Agree(a: seq<Field>, b: seq<Field>) {
    && DistinctKeys(a) && DistinctKeys(b)
    && (forall i | 0 <= i < |a| :: Kept(a[i]))
    && (forall j | 0 <= j < |b| :: Kept(b[j]))
    && (forall i, j | 0 <= i < |a| && 0 <= j < |b| ::
          SameUpToKeyOrder(a[i].value, b[j].value) <==> Denote(a[i].value) == Denote(b[j].value))
  }

  lemma FieldFound(a: seq<Field>, i: nat, b: seq<Field>) returns (j: nat)
    requires DistinctKeys(a) && DistinctKeys(b) && DenoteFields(a) == DenoteFields(b)
    requires i < |a| && Kept(a[i])
    ensures j < |b| && b[j].key == a[i].key && Denote(b[j].value) == Denote(a[i].value)
  {
    DenoteFieldsFind(a, i);
    DenoteFieldsKeys(b);
    j :| 0 <= j < |b| && b[j].key == a[i].key && Kept(b[j]);
    DenoteFieldsFind(b, j);
  }

  lemma SameMeaningSameFields(a: seq<Field>, b: seq<Field>)
    requires Agree(a, b) && DenoteFields(a) == DenoteFields(b)
    ensures SameUpToKeyOrder(Obj(a), Obj(b))
  {
    forall i | 0 <= i < |a| ensures HasSame(a[i], b) {
      var j := FieldFound(a, i, b);
      assert SameUpToKeyOrder(a[i].value, b[j].value);
    }
    forall j | 0 <= j < |b| ensures HasKey(b[j].key, a) {
      var i := FieldFound(b, j, a);
    }
  }

  lemma SameFieldsCover(a: seq<Field>, b: seq<Field>)
    requires Agree(a, b)
    requires forall i | 0 <= i < |a| :: HasSame(a[i], b)
    requires forall j | 0 <= j < |b| :: HasKey(b[j].key, a)
    ensures Covers(a, b) && Covers(b, a)
  {
    forall j | 0 <= j < |b| && Kept(b[j])
      ensures exists i :: 0 <= i < |a| && a[i].key == b[j].key && Kept(a[i]) && Denote(a[i].value) == Denote(b[j].value)
    {
      assert HasKey(b[j].key, a);
      var i :| 0 <= i < |a| && a[i].key == b[j].key;
      assert HasSame(a[i], b);
      var k :| 0 <= k < |b| && b[k].key == a[i].key && SameUpToKeyOrder(a[i].value, b[k].value);
      assert k == j;
    }
    forall i | 0 <= i < |a| && Kept(a[i])
      ensures exists j :: 0 <= j < |b| && b[j].key == a[i].key && Kept(b[j]) && Denote(b[j].value) == Denote(a[i].value)
    {
      assert HasSame(a[i], b);
      var j :| 0 <= j < |b| && b[j].key == a[i].key && SameUpToKeyOrder(a[i].value, b[j].value);
    }
  }

  /** The two-way law on values without `undefined`, a non-finite number or a "__proto__" key. */
  lemma CanonicalTextIffSame(v: Value, w: Value)
    requires Valid(v) && Valid(w) && Plain(v) && Plain(w)
    ensures CanonicalJsonString(v) == CanonicalJsonString(w) <==> SameUpToKeyOrder(v, w)
  {
    CanonicalTextIffSameMeaning(v, w);
    SameIffSameMeaning(v, w);
  }

  /** Outside those values the law fails: a "__proto__" member leaves no trace in the text. */
  lemma ProtoMemberIsLost(v: Value)
    requires Valid(v)
    ensures CanonicalJsonString(Obj([Field(PROTO_KEY, v)])) == CanonicalJsonString(Obj([]))
    ensures !SameUpToKeyOrder(Obj([Field(PROTO_KEY, v)]), Obj([]))
  {
    var one := Obj([Field(PROTO_KEY, v)]);
    assert DenoteFields(one.fields) == map[];
    CanonicalTextIffSameMeaning(one, Obj([]));
    assert one.fields[0].key == PROTO_KEY;
    assert !HasSame(one.fields[0], []);
  }
}
