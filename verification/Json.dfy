/** src/lib/hash.ts: the key-sorting canonical JSON printer whose output is hashed.

    JavaScript strings are sequences of UTF-16 code units, lone surrogates included.
    A finite number stands for its ECMAScript `Number::toString` text (two finite numbers print
    alike exactly when that text is the same), and an object for its own enumerable string keys. */
module Json {
  import opened Tables

  type CodeUnit = x: int | 0 <= x < 0x1_0000
  type JsString = seq<CodeUnit>

  datatype Value =
    | Undefined
    | Null
    | Bool(b: bool)
    | NonFinite // NaN and the two infinities
    | Num(text: JsString)
    | Str(s: JsString)
    | Arr(items: seq<Value>)
    | Obj(fields: seq<Field>)

  datatype Field = Field(key: JsString, value: Value)

  // What a JSON text means: an object is a finite map, so key order is gone at every depth.
  datatype Data =
    | Absent // what `undefined` leaves behind
    | DNull
    | DBool(b: bool)
    | DNum(text: JsString)
    | DStr(s: JsString)
    | DArr(items: seq<Data>)
    | DObj(members: map<JsString, Data>)

  const QUOTE: CodeUnit := 0x22
  const COMMA: CodeUnit := 0x2c
  const COLON: CodeUnit := 0x3a
  const OPEN_BRACKET: CodeUnit := 0x5b
  const BACKSLASH: CodeUnit := 0x5c
  const CLOSE_BRACKET: CodeUnit := 0x5d
  const LETTER_U: CodeUnit := 0x75
  const OPEN_BRACE: CodeUnit := 0x7b
  const CLOSE_BRACE: CodeUnit := 0x7d
  const NULL_TEXT: JsString := [0x6e, 0x75, 0x6c, 0x6c]
  const TRUE_TEXT: JsString := [0x74, 0x72, 0x75, 0x65]
  const FALSE_TEXT: JsString := [0x66, 0x61, 0x6c, 0x73, 0x65]
  // "__proto__": assigning this key sets the prototype and creates no own property
  const PROTO_KEY: JsString := [0x5f, 0x5f, 0x70, 0x72, 0x6f, 0x74, 0x6f, 0x5f, 0x5f]
  // the largest array index, 2^32 - 2
  const MAX_ARRAY_INDEX := 0xffff_fffe

  // ---------------------------------------------------------------- values

  predicate IsDigit(c: CodeUnit) {
    0x30 <= c <= 0x39
  }

  // digits, '+', '-', '.' and 'e': all that Number::toString uses for a finite number
  predicate IsNumberUnit(c: CodeUnit) {
    IsDigit(c) || c == 0x2b || c == 0x2d || c == 0x2e || c == 0x65
  }

  predicate IsNumberText(s: JsString) {
    |s| > 0 && forall i | 0 <= i < |s| :: IsNumberUnit(s[i])
  }

  predicate DistinctKeys(fields: seq<Field>) {
    forall i, j | 0 <= i < j < |fields| :: fields[i].key != fields[j].key
  }

  predicate Valid(v: Value) {
    match v
    case Num(text) => IsNumberText(text)
    case Arr(items) => forall i | 0 <= i < |items| :: Valid(items[i])
    case Obj(fields) => DistinctKeys(fields) && forall i | 0 <= i < |fields| :: Valid(fields[i].value)
    case _ => true
  }

  // ---------------------------------------------------------------- meaning

  function Denote(v: Value): Data {
    match v
    case Undefined => Absent
    case Null => DNull
    case Bool(b) => DBool(b)
    case NonFinite => DNull
    case Num(text) => DNum(text)
    case Str(s) => DStr(s)
    case Arr(items) => DArr(DenoteItems(items))
    case Obj(fields) => DObj(DenoteFields(fields))
  }

  function DenoteItems(items: seq<Value>): (r: seq<Data>)
    ensures |r| == |items|
  {
    if items == [] then []
    else [if items[0] == Undefined then DNull else Denote(items[0])] + DenoteItems(items[1..])
  }

  predicate Kept(f: Field) {
    f.key != PROTO_KEY && f.value != Undefined
  }

  function DenoteFields(fields: seq<Field>): map<JsString, Data> {
    if fields == [] then map[]
    else
      var rest := DenoteFields(fields[1..]);
      if Kept(fields[0]) then rest[fields[0].key := Denote(fields[0].value)] else rest
  }

  // ---------------------------------------------------------------- key order

  // The order of Array.prototype.sort on strings: by code unit.
  predicate LexLess(a: JsString, b: JsString) {
    b != [] && (a == [] || a[0] < b[0] || (a[0] == b[0] && LexLess(a[1..], b[1..])))
  }

  // the keys agree up to position k, where `a` ends and `b` goes on, or has the smaller code unit
  ghost predicate FirstDifference(a: JsString, b: JsString, k: nat) {
    k <= |a| && k < |b| && a[..k] == b[..k] && (k == |a| || a[k] < b[k])
  }

  ghost predicate ComesFirst(a: JsString, b: JsString) {
    exists k: nat :: FirstDifference(a, b, k)
  }

  /** The order by the first position at which two keys differ. */
  lemma {:induction false} LexLessByPosition(a: JsString, b: JsString)
    ensures LexLess(a, b) <==> ComesFirst(a, b)
  {
    if a == [] || b == [] {
      assert b != [] ==> FirstDifference(a, b, 0);
    } else {
      LexLessByPosition(a[1..], b[1..]);
      if LexLess(a, b) {
        if a[0] < b[0] {
          assert FirstDifference(a, b, 0);
        } else {
          var k: nat :| FirstDifference(a[1..], b[1..], k);
          assert a[..k + 1] == [a[0]] + a[1..][..k] && b[..k + 1] == [b[0]] + b[1..][..k];
          assert FirstDifference(a, b, k + 1);
        }
      }
      if k: nat :| FirstDifference(a, b, k) {
        if k > 0 {
          assert a[0] == a[..k][0] && b[0] == b[..k][0];
          assert a[1..][..k - 1] == a[..k][1..] && b[1..][..k - 1] == b[..k][1..];
          assert FirstDifference(a[1..], b[1..], k - 1);
        }
      }
    }
  }

  function DecimalValue(s: JsString): int {
    if s == [] then 0
    else
      var last: int := s[|s| - 1];
      DecimalValue(s[..|s| - 1]) * 10 + last - 0x30
  }

  predicate IsDecimal(s: JsString) {
    |s| > 0 && (forall i | 0 <= i < |s| :: IsDigit(s[i])) && (|s| > 1 ==> s[0] != 0x30)
  }

  predicate IsArrayIndex(s: JsString) {
    IsDecimal(s) && DecimalValue(s) <= MAX_ARRAY_INDEX
  }

  // The order in which an object filled in sorted order lists its own keys:
  // array indices ascending, then the other keys as they were added.
  predicate Precedes(a: JsString, b: JsString) {
    if IsArrayIndex(a) then !IsArrayIndex(b) || DecimalValue(a) < DecimalValue(b)
    else !IsArrayIndex(b) && LexLess(a, b)
  }

  ghost predicate Ordered(fields: seq<Field>) {
    forall i, j | 0 <= i < j < |fields| :: Precedes(fields[i].key, fields[j].key)
  }

  lemma {:induction false} LexTotal(a: JsString, b: JsString)
    ensures !LexLess(a, a)
    ensures a != b ==> LexLess(a, b) || LexLess(b, a)
    ensures !(LexLess(a, b) && LexLess(b, a))
  {
    if a != [] && b != [] {
      LexTotal(a[1..], b[1..]);
      if a[0] == b[0] {
        assert a == [a[0]] + a[1..] && b == [b[0]] + b[1..];
      }
    } else if a != [] {
      LexTotal(a[1..], []);
    }
  }

  lemma {:induction false} LexTransitive(a: JsString, b: JsString, c: JsString)
    requires LexLess(a, b) && LexLess(b, c)
    ensures LexLess(a, c)
  {
    if a != [] && a[0] == b[0] == c[0] {
      LexTransitive(a[1..], b[1..], c[1..]);
    }
  }

  lemma {:induction false} DecimalPositive(s: JsString)
    requires forall i | 0 <= i < |s| :: IsDigit(s[i])
    ensures DecimalValue(s) >= 0
    ensures |s| > 0 && s[0] != 0x30 ==> DecimalValue(s) >= 1
  {
    if |s| > 0 {
      DecimalPositive(s[..|s| - 1]);
    }
  }

  lemma {:induction false} DecimalInjective(s: JsString, t: JsString)
    requires IsDecimal(s) && IsDecimal(t) && DecimalValue(s) == DecimalValue(t)
    ensures s == t
  {
    var s', t' := s[..|s| - 1], t[..|t| - 1];
    DecimalPositive(s');
    DecimalPositive(t');
    assert DecimalValue(s') == DecimalValue(t') && s[|s| - 1] == t[|t| - 1];
    assert s == s' + [s[|s| - 1]] && t == t' + [t[|t| - 1]];
    if |s| > 1 && |t| > 1 {
      DecimalInjective(s', t');
    }
  }

  lemma PrecedesTotal(a: JsString, b: JsString)
    ensures !Precedes(a, a)
    ensures a != b ==> Precedes(a, b) || Precedes(b, a)
    ensures !(Precedes(a, b) && Precedes(b, a))
  {
    LexTotal(a, b);
    if IsArrayIndex(a) && IsArrayIndex(b) && DecimalValue(a) == DecimalValue(b) {
      DecimalInjective(a, b);
    }
  }

  lemma PrecedesTransitive(a: JsString, b: JsString, c: JsString)
    requires Precedes(a, b) && Precedes(b, c)
    ensures Precedes(a, c)
  {
    if !IsArrayIndex(a) {
      LexTransitive(a, b, c);
    }
  }

  // ---------------------------------------------------------------- sortKeysDeep

  function InsertByKey(f: Field, sorted: seq<Field>): seq<Field> {
    if sorted == [] then [f]
    else if LexLess(f.key, sorted[0].key) then [f] + sorted
    else [sorted[0]] + InsertByKey(f, sorted[1..])
  }

  // Object.keys(value).sort(), each key with its value
  function SortByKey(fields: seq<Field>): seq<Field> {
    if fields == [] then [] else InsertByKey(fields[0], SortByKey(fields[1..]))
  }

  // where an array index goes among the keys already there
  function InsertIndex(fields: seq<Field>, f: Field): seq<Field> {
    if fields == [] || Precedes(f.key, fields[0].key) then [f] + fields
    else [fields[0]] + InsertIndex(fields[1..], f)
  }

  // sorted[key] = value, on an object that has no such key yet
  function SetProperty(fields: seq<Field>, f: Field): seq<Field> {
    if f.key == PROTO_KEY then fields
    else if IsArrayIndex(f.key) then InsertIndex(fields, f)
    else fields + [f]
  }

  function Assemble(fields: seq<Field>): seq<Field> {
    if fields == [] then []
    else SetProperty(Assemble(fields[..|fields| - 1]), fields[|fields| - 1])
  }

  function Sorted(v: Value): Value {
    match v
    case Arr(items) => Arr(SortedItems(items))
    case Obj(fields) => Obj(Assemble(SortByKey(SortedValues(fields))))
    case _ => v
  }

  function SortedItems(items: seq<Value>): (r: seq<Value>)
    ensures |r| == |items|
    ensures forall i | 0 <= i < |items| :: r[i] == Sorted(items[i])
  {
    if items == [] then [] else [Sorted(items[0])] + SortedItems(items[1..])
  }

  function SortedValues(fields: seq<Field>): (r: seq<Field>)
    ensures |r| == |fields|
    ensures forall i | 0 <= i < |fields| :: r[i] == Field(fields[i].key, Sorted(fields[i].value))
  {
    if fields == [] then []
    else [Field(fields[0].key, Sorted(fields[0].value))] + SortedValues(fields[1..])
  }

  lemma {:induction false} InsertCommutes(f: Field, sorted: seq<Field>)
    ensures SortedValues(InsertByKey(f, sorted))
         == InsertByKey(Field(f.key, Sorted(f.value)), SortedValues(sorted))
  {
    if sorted == [] {
    } else if LexLess(f.key, sorted[0].key) {
      assert ([f] + sorted)[1..] == sorted;
    } else {
      InsertCommutes(f, sorted[1..]);
      assert ([sorted[0]] + InsertByKey(f, sorted[1..]))[1..] == InsertByKey(f, sorted[1..]);
    }
  }

  lemma {:induction false} SortCommutes(fields: seq<Field>)
    ensures SortedValues(SortByKey(fields)) == SortByKey(SortedValues(fields))
  {
    if fields != [] {
      SortCommutes(fields[1..]);
      InsertCommutes(fields[0], SortByKey(fields[1..]));
    }
  }

  lemma {:induction false} InsertElements(f: Field, sorted: seq<Field>)
    ensures multiset(InsertByKey(f, sorted)) == multiset(sorted) + multiset{f}
  {
    if sorted == [] {
    } else if LexLess(f.key, sorted[0].key) {
    } else {
      InsertElements(f, sorted[1..]);
      assert sorted == [sorted[0]] + sorted[1..];
    }
  }

  lemma {:induction false} SortElements(fields: seq<Field>)
    ensures multiset(SortByKey(fields)) == multiset(fields)
  {
    if fields != [] {
      SortElements(fields[1..]);
      InsertElements(fields[0], SortByKey(fields[1..]));
      assert fields == [fields[0]] + fields[1..];
    }
  }

  lemma SortedOrder(fields: seq<Field>)
    ensures var ordered := SortByKey(fields);
            && SortedValues(ordered) == SortByKey(SortedValues(fields))
            && forall i | 0 <= i < |ordered| :: ordered[i] in fields
  {
    SortCommutes(fields);
    SortElements(fields);
    forall i | 0 <= i < |SortByKey(fields)| ensures SortByKey(fields)[i] in fields {
      assert SortByKey(fields)[i] in multiset(SortByKey(fields));
    }
  }

  // ---------------------------------------------------------------- filling an object in sorted key order

  ghost predicate LexSorted(fields: seq<Field>) {
    forall i, j | 0 <= i < j < |fields| :: LexLess(fields[i].key, fields[j].key)
  }

  lemma {:induction false} InsertLexSorted(f: Field, sorted: seq<Field>)
    requires LexSorted(sorted)
    requires forall i | 0 <= i < |sorted| :: sorted[i].key != f.key
    ensures LexSorted(InsertByKey(f, sorted))
  {
    if sorted == [] {
    } else if LexLess(f.key, sorted[0].key) {
      forall j | 0 <= j < |sorted| ensures LexLess(f.key, sorted[j].key) {
        if j > 0 { LexTransitive(f.key, sorted[0].key, sorted[j].key); }
      }
    } else {
      LexTotal(f.key, sorted[0].key);
      var tail := InsertByKey(f, sorted[1..]);
      InsertLexSorted(f, sorted[1..]);
      InsertElements(f, sorted[1..]);
      forall j | 0 <= j < |tail| ensures LexLess(sorted[0].key, tail[j].key) {
        assert tail[j] in multiset(tail);
        if tail[j] != f {
          assert tail[j] in sorted[1..];
        }
      }
    }
  }

  lemma {:induction false} SortLexSorted(fields: seq<Field>)
    requires DistinctKeys(fields)
    ensures LexSorted(SortByKey(fields))
  {
    if fields != [] {
      SortLexSorted(fields[1..]);
      SortElements(fields[1..]);
      forall i | 0 <= i < |SortByKey(fields[1..])| ensures SortByKey(fields[1..])[i].key != fields[0].key {
        assert SortByKey(fields[1..])[i] in multiset(fields[1..]);
        assert SortByKey(fields[1..])[i] in fields[1..];
      }
      InsertLexSorted(fields[0], SortByKey(fields[1..]));
    }
  }

  lemma {:induction false} InsertIndexOrdered(fields: seq<Field>, f: Field)
    requires Ordered(fields)
    requires forall i | 0 <= i < |fields| :: fields[i].key != f.key
    ensures Ordered(InsertIndex(fields, f))
    ensures multiset(InsertIndex(fields, f)) == multiset(fields) + multiset{f}
  {
    hide Precedes;
    if fields == [] {
    } else if Precedes(f.key, fields[0].key) {
      forall j | 0 <= j < |fields| ensures Precedes(f.key, fields[j].key) {
        if j > 0 { PrecedesTransitive(f.key, fields[0].key, fields[j].key); }
      }
      PrependOrdered(f, fields);
    } else {
      PrecedesTotal(f.key, fields[0].key);
      var tail := InsertIndex(fields[1..], f);
      InsertIndexOrdered(fields[1..], f);
      assert fields == [fields[0]] + fields[1..];
      forall j | 0 <= j < |tail| ensures Precedes(fields[0].key, tail[j].key) {
        assert tail[j] in multiset(tail);
        if tail[j] != f {
          assert tail[j] in fields[1..];
        }
      }
      PrependOrdered(fields[0], tail);
    }
  }

  lemma PrependOrdered(f: Field, fields: seq<Field>)
    requires Ordered(fields) && forall j | 0 <= j < |fields| :: Precedes(f.key, fields[j].key)
    ensures Ordered([f] + fields)
  {
    hide Precedes;
  }

  // assigning a key that sorts after all others
  lemma SetPropertyOrdered(done: seq<Field>, last: Field)
    requires Ordered(done) && forall i | 0 <= i < |done| :: LexLess(done[i].key, last.key) && done[i].key != last.key
    ensures Ordered(SetProperty(done, last))
    ensures forall f :: f in SetProperty(done, last) <==> f in done || (f == last && f.key != PROTO_KEY)
  {
    hide LexLess, DecimalValue;
    if last.key != PROTO_KEY && IsArrayIndex(last.key) {
      InsertIndexOrdered(done, last);
      forall f ensures f in InsertIndex(done, last) <==> f in done || f == last {
        assert f in InsertIndex(done, last) <==> f in multiset(InsertIndex(done, last));
      }
    }
  }

  // The filled object lists its keys in the canonical order and has every field but "__proto__".
  lemma {:induction false} AssembleOrdered(fields: seq<Field>)
    requires LexSorted(fields)
    ensures Ordered(Assemble(fields))
    ensures forall f :: f in Assemble(fields) <==> f in fields && f.key != PROTO_KEY
  {
    hide SetProperty, Ordered, LexLess;
    if fields == [] {
      NothingAssembled();
    } else {
      var front, last := fields[..|fields| - 1], fields[|fields| - 1];
      var done := Assemble(front);
      AssembleOrdered(front);
      assert fields == front + [last];
      forall i | 0 <= i < |done| ensures LexLess(done[i].key, last.key) && done[i].key != last.key {
        assert done[i] in front;
        LexTotal(done[i].key, last.key);
      }
      SetPropertyOrdered(done, last);
    }
  }

  lemma NothingAssembled()
    ensures Ordered(Assemble([]))
  {
  }

  lemma OrderedDistinct(fields: seq<Field>)
    requires Ordered(fields)
    ensures DistinctKeys(fields)
  {
    forall i, j | 0 <= i < j < |fields| ensures fields[i].key != fields[j].key {
      PrecedesTotal(fields[i].key, fields[j].key);
    }
  }

  lemma FilledFields(fields: seq<Field>)
    requires DistinctKeys(fields)
    ensures var filled := Assemble(SortByKey(SortedValues(fields)));
            && Ordered(filled) && DistinctKeys(filled)
            && forall f :: f in filled <==> f in SortedValues(fields) && f.key != PROTO_KEY
  {
    var mapped := SortedValues(fields);
    var ordered := SortByKey(mapped);
    SortLexSorted(mapped);
    SortElements(mapped);
    AssembleOrdered(ordered);
    OrderedDistinct(Assemble(ordered));
    forall f ensures f in ordered <==> f in mapped {
      assert f in ordered <==> f in multiset(ordered);
      assert f in mapped <==> f in multiset(mapped);
    }
  }

  lemma FilledOrigin(fields: seq<Field>, f: Field) returns (j: nat)
    requires DistinctKeys(fields) && f in Assemble(SortByKey(SortedValues(fields)))
    ensures j < |fields| && f == Field(fields[j].key, Sorted(fields[j].value)) && f.key != PROTO_KEY
  {
    FilledFields(fields);
    j :| 0 <= j < |fields| && f == SortedValues(fields)[j];
  }

  // ---------------------------------------------------------------- what the sorted copy is, key by key

  // digits without a leading zero, at most 2^32 - 2
  ghost predicate IsIndexText(s: JsString) {
    && |s| > 0 && (forall i | 0 <= i < |s| :: 0x30 <= s[i] <= 0x39) && (|s| > 1 ==> s[0] != 0x30)
    && DecimalValue(s) <= 4_294_967_294
  }

  // array indices by number, then the other keys by their first difference
  ghost predicate ListedBefore(a: JsString, b: JsString) {
    if IsIndexText(a) && IsIndexText(b) then DecimalValue(a) < DecimalValue(b)
    else if IsIndexText(a) || IsIndexText(b) then IsIndexText(a)
    else ComesFirst(a, b)
  }

  lemma PrecedesByPosition(a: JsString, b: JsString)
    ensures Precedes(a, b) <==> ListedBefore(a, b)
  {
    LexLessByPosition(a, b);
  }

  ghost predicate IsListed(fields: seq<Field>) {
    forall i, j | 0 <= i < j < |fields| :: ListedBefore(fields[i].key, fields[j].key)
  }

  // `copy` is the value with the members of every object, "__proto__" aside, listed in that order
  ghost predicate SortedCopy(v: Value, copy: Value)
    decreases v
  {
    match v
    case Arr(items) =>
      copy.Arr? && |copy.items| == |items| && forall i | 0 <= i < |items| :: SortedCopy(items[i], copy.items[i])
    case Obj(fields) =>
      && copy.Obj? && IsListed(copy.fields)
      && (forall i | 0 <= i < |fields| && fields[i].key != [0x5f, 0x5f, 0x70, 0x72, 0x6f, 0x74, 0x6f, 0x5f, 0x5f] ::
            HasCopy(fields[i], copy.fields))
      && (forall j | 0 <= j < |copy.fields| :: ComesFrom(copy.fields[j].key, fields))
    case _ => copy == v
  }

  ghost predicate HasCopy(f: Field, copies: seq<Field>)
    decreases f
  {
    exists j :: 0 <= j < |copies| && copies[j].key == f.key && SortedCopy(f.value, copies[j].value)
  }

  ghost predicate ComesFrom(key: JsString, fields: seq<Field>) {
    && key != [0x5f, 0x5f, 0x70, 0x72, 0x6f, 0x74, 0x6f, 0x5f, 0x5f]
    && exists i :: 0 <= i < |fields| && fields[i].key == key
  }

  lemma FilledListed(fields: seq<Field>)
    requires DistinctKeys(fields)
    ensures IsListed(Assemble(SortByKey(SortedValues(fields))))
    ensures forall j | 0 <= j < |Assemble(SortByKey(SortedValues(fields)))| ::
              ComesFrom(Assemble(SortByKey(SortedValues(fields)))[j].key, fields)
  {
    var filled := Assemble(SortByKey(SortedValues(fields)));
    FilledFields(fields);
    forall i, j | 0 <= i < j < |filled| ensures ListedBefore(filled[i].key, filled[j].key) {
      PrecedesByPosition(filled[i].key, filled[j].key);
    }
    hide Precedes, IsIndexText, LexLess;
    forall j | 0 <= j < |filled| ensures ComesFrom(filled[j].key, fields) {
      var k := FilledOrigin(fields, filled[j]);
    }
  }

  lemma FieldFilled(fields: seq<Field>, i: nat)
    requires DistinctKeys(fields) && i < |fields| && fields[i].key != PROTO_KEY
    requires SortedCopy(fields[i].value, Sorted(fields[i].value))
    ensures HasCopy(fields[i], Assemble(SortByKey(SortedValues(fields))))
  {
    FilledFields(fields);
    var filled := Assemble(SortByKey(SortedValues(fields)));
    assert SortedValues(fields)[i] in SortedValues(fields);
    var j :| 0 <= j < |filled| && filled[j] == SortedValues(fields)[i];
    hide SortedCopy;
    assert filled[j].key == fields[i].key && SortedCopy(fields[i].value, filled[j].value);
  }

  lemma {:induction false} SortedIsCopy(v: Value)
    requires Valid(v)
    ensures SortedCopy(v, Sorted(v))
  {
    match v {
      case Arr(items) =>
        forall i | 0 <= i < |items| ensures SortedCopy(items[i], Sorted(items[i])) {
          SortedIsCopy(items[i]);
        }
      case Obj(fields) =>
        FilledListed(fields);
        forall i | 0 <= i < |fields| && fields[i].key != PROTO_KEY
          ensures HasCopy(fields[i], Assemble(SortByKey(SortedValues(fields))))
        {
          SortedIsCopy(fields[i].value);
          FieldFilled(fields, i);
        }
        hide IsListed, HasCopy, ComesFrom;
      case _ =>
    }
  }

  // ---------------------------------------------------------------- the program

  /** sortKeysDeep: recursion on arrays and objects. */
  method SortKeysDeep(value: Value) returns (r: Value)
    ensures r == Sorted(value)
    ensures Valid(value) ==> SortedCopy(value, r)
    decreases value, 1
  {
    if Valid(value) {
      SortedIsCopy(value);
    }
    match value {
      case Arr(items) =>
        var mapped := MapItems(items);
        return Arr(mapped);
      case Obj(fields) =>
        var sorted := FillSorted(fields);
        return Obj(sorted);
      case _ =>
        return value;
    }
  }

  method MapItems(items: seq<Value>) returns (mapped: seq<Value>)
    ensures mapped == SortedItems(items)
    decreases items, 0
  {
    mapped := [];
    for i := 0 to |items|
      invariant |mapped| == i
      invariant forall k | 0 <= k < i :: mapped[k] == Sorted(items[k])
    {
      var item := SortKeysDeep(items[i]);
      mapped := mapped + [item];
    }
  }

  // the loop that sets one property of the new object per key, in sorted key order
  lemma AssembleNext(fields: seq<Field>, i: nat)
    requires i < |fields|
    ensures Assemble(fields[..i + 1]) == SetProperty(Assemble(fields[..i]), fields[i])
  {
    hide SetProperty;
    assert fields[..i + 1][..i] == fields[..i];
  }

  method FillSorted(fields: seq<Field>) returns (sorted: seq<Field>)
    ensures sorted == Assemble(SortByKey(SortedValues(fields)))
    ensures Valid(Obj(fields)) ==> SortedCopy(Obj(fields), Obj(sorted))
    decreases fields, 0
  {
    if Valid(Obj(fields)) {
      SortedIsCopy(Obj(fields));
    }
    var ordered := SortByKey(fields);
    SortedOrder(fields);
    ghost var target := SortedValues(ordered);
    sorted := [];
    assert Assemble([]) == [];
    hide Assemble, SetProperty, SortByKey, Sorted;
    for i := 0 to |ordered|
      invariant sorted == Assemble(target[..i])
    {
      assert ordered[i] in fields;
      var child := SortKeysDeep(ordered[i].value);
      AssembleNext(target, i);
      sorted := SetProperty(sorted, Field(ordered[i].key, child));
    }
    assert target[..|ordered|] == target;
  }

  // ---------------------------------------------------------------- JSON.stringify

  predicate IsHigh(c: CodeUnit) {
    0xd800 <= c <= 0xdbff
  }

  predicate IsLow(c: CodeUnit) {
    0xdc00 <= c <= 0xdfff
  }

  function HexDigit(n: int): CodeUnit
    requires 0 <= n < 16
  {
    if n < 10 then 0x30 + n else 0x61 + (n - 10)
  }

  function EscapeUnit(c: CodeUnit): JsString {
    if c == 0x08 then [BACKSLASH, 0x62]
    else if c == 0x09 then [BACKSLASH, 0x74]
    else if c == 0x0a then [BACKSLASH, 0x6e]
    else if c == 0x0c then [BACKSLASH, 0x66]
    else if c == 0x0d then [BACKSLASH, 0x72]
    else if c == QUOTE || c == BACKSLASH then [BACKSLASH, c]
    else if c < 0x20 || IsHigh(c) || IsLow(c) then
      [BACKSLASH, LETTER_U, HexDigit(c / 0x1000), HexDigit(c / 0x100 % 0x10), HexDigit(c / 0x10 % 0x10),
       HexDigit(c % 0x10)]
    else [c]
  }

  predicate StartsPair(s: JsString) {
    |s| >= 2 && IsHigh(s[0]) && IsLow(s[1])
  }

  // A surrogate pair is written as it is, a lone surrogate as an escape.
  // `second` says that s[0] is the low half of a pair whose high half has been written.
  function EscapeHead(s: JsString, second: bool): JsString
    requires s != []
  {
    if second || StartsPair(s) then [s[0]] else EscapeUnit(s[0])
  }

  function Escape(s: JsString, second: bool): JsString {
    if s == [] then [] else EscapeHead(s, second) + Escape(s[1..], !second && StartsPair(s))
  }

  function Quote(s: JsString): JsString {
    [QUOTE] + Escape(s, false) + [QUOTE]
  }

  function Print(v: Value): JsString {
    match v
    case Undefined => NULL_TEXT // reached for array elements only
    case Null => NULL_TEXT
    case Bool(b) => if b then TRUE_TEXT else FALSE_TEXT
    case NonFinite => NULL_TEXT
    case Num(text) => text
    case Str(s) => Quote(s)
    case Arr(items) => [OPEN_BRACKET] + PrintItems(items, true) + [CLOSE_BRACKET]
    case Obj(fields) => [OPEN_BRACE] + PrintFields(fields, true) + [CLOSE_BRACE]
  }

  function Separator(first: bool): JsString {
    if first then [] else [COMMA]
  }

  function PrintItems(items: seq<Value>, first: bool): JsString {
    if items == [] then []
    else Separator(first) + Print(items[0]) + PrintItems(items[1..], false)
  }

  function PrintFields(fields: seq<Field>, first: bool): JsString {
    if fields == [] then []
    else if fields[0].value == Undefined then PrintFields(fields[1..], first)
    else Separator(first) + PrintField(fields[0]) + PrintFields(fields[1..], false)
  }

  function PrintField(f: Field): JsString {
    Quote(f.key) + [COLON] + Print(f.value)
  }

  // JSON.stringify(undefined) is undefined
  function CanonicalJsonString(v: Value): Option<JsString> {
    if v == Undefined then None else Some(Print(Sorted(v)))
  }

  // ---------------------------------------------------------------- a parser that undoes the printer

  datatype Parsed<+T> = Fail | Ok(value: T, rest: JsString)

  function HexValue(c: CodeUnit): int {
    if IsDigit(c) then c - 0x30 else if 0x61 <= c <= 0x66 then c - 0x61 + 10 else -1
  }

  function ParseEscape(t: JsString): Parsed<CodeUnit>
    requires t != []
  {
    var c := t[0];
    if c == 0x62 then Ok(0x08, t[1..])
    else if c == 0x74 then Ok(0x09, t[1..])
    else if c == 0x6e then Ok(0x0a, t[1..])
    else if c == 0x66 then Ok(0x0c, t[1..])
    else if c == 0x72 then Ok(0x0d, t[1..])
    else if c == QUOTE || c == BACKSLASH then Ok(c, t[1..])
    else if c == LETTER_U && |t| >= 5 then
      var a, b, d, e := HexValue(t[1]), HexValue(t[2]), HexValue(t[3]), HexValue(t[4]);
      if a < 0 || b < 0 || d < 0 || e < 0 then Fail
      else Ok(a * 0x1000 + b * 0x100 + d * 0x10 + e, t[5..])
    else Fail
  }

  function ParseString(t: JsString): (r: Parsed<JsString>)
    ensures r.Ok? ==> |r.rest| < |t|
    decreases |t|
  {
    if t == [] then Fail
    else if t[0] == QUOTE then Ok([], t[1..])
    else if t[0] == BACKSLASH then
      if |t| == 1 then Fail
      else
        match ParseEscape(t[1..])
        case Fail => Fail
        case Ok(c, rest) => Prefixed(c, ParseString(rest))
    else Prefixed(t[0], ParseString(t[1..]))
  }

  function Prefixed(c: CodeUnit, r: Parsed<JsString>): Parsed<JsString> {
    match r
    case Fail => Fail
    case Ok(s, rest) => Ok([c] + s, rest)
  }

  function NumberRun(t: JsString): (n: nat)
    ensures n <= |t|
  {
    if t == [] || !IsNumberUnit(t[0]) then 0 else 1 + NumberRun(t[1..])
  }

  function ParseValue(t: JsString): (r: Parsed<Data>)
    ensures r.Ok? ==> |r.rest| < |t|
    decreases |t|, 0
  {
    if t == [] then Fail
    else if NULL_TEXT <= t then Ok(DNull, t[4..])
    else if TRUE_TEXT <= t then Ok(DBool(true), t[4..])
    else if FALSE_TEXT <= t then Ok(DBool(false), t[5..])
    else if t[0] == QUOTE then
      match ParseString(t[1..])
      case Fail => Fail
      case Ok(s, rest) => Ok(DStr(s), rest)
    else if t[0] == OPEN_BRACKET then
      match ParseItems(t[1..], true)
      case Fail => Fail
      case Ok(items, rest) => Ok(DArr(items), rest)
    else if t[0] == OPEN_BRACE then
      match ParseMembers(t[1..], true)
      case Fail => Fail
      case Ok(members, rest) => Ok(DObj(members), rest)
    else
      var n := NumberRun(t);
      if n == 0 then Fail else Ok(DNum(t[..n]), t[n..])
  }

  function AfterSeparator(t: JsString, first: bool): Parsed<()> {
    if first then Ok((), t)
    else if t != [] && t[0] == COMMA then Ok((), t[1..])
    else Fail
  }

  function ParseItems(t: JsString, first: bool): (r: Parsed<seq<Data>>)
    ensures r.Ok? ==> |r.rest| < |t|
    decreases |t|, 1
  {
    if t != [] && t[0] == CLOSE_BRACKET then Ok([], t[1..])
    else
      match AfterSeparator(t, first)
      case Fail => Fail
      case Ok(_, u) =>
        match ParseValue(u)
        case Fail => Fail
        case Ok(d, rest) =>
          match ParseItems(rest, false)
          case Fail => Fail
          case Ok(ds, rest') => Ok([d] + ds, rest')
  }

  // a member's name and the colon after it
  function ParseKey(t: JsString): (r: Parsed<JsString>)
    ensures r.Ok? ==> |r.rest| < |t|
  {
    if t == [] || t[0] != QUOTE then Fail
    else
      match ParseString(t[1..])
      case Fail => Fail
      case Ok(key, rest) => if rest == [] || rest[0] != COLON then Fail else Ok(key, rest[1..])
  }

  function ParseMembers(t: JsString, first: bool): (r: Parsed<map<JsString, Data>>)
    ensures r.Ok? ==> |r.rest| < |t|
    decreases |t|, 1
  {
    if t != [] && t[0] == CLOSE_BRACE then Ok(map[], t[1..])
    else
      match AfterSeparator(t, first)
      case Fail => Fail
      case Ok(_, u) =>
        match ParseKey(u)
        case Fail => Fail
        case Ok(key, w) =>
          match ParseValue(w)
          case Fail => Fail
          case Ok(d, rest) =>
            match ParseMembers(rest, false)
            case Fail => Fail
            case Ok(m, rest') => Ok(m[key := d], rest')
  }
}
