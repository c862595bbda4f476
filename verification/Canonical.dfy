/**
 * The canonical JSON text of a request payload. Two payloads have the same text exactly when they differ
 * only in the order of their members and in what JSON text does not show.
 */
module Canonical {
  import opened Texts
  import opened Wrappers

  /** A payload. `NonFinite` is a number that JSON cannot write, and `Num` holds the text of any other number. */
  datatype JS =
    | Undefined
    | Null
    | NonFinite
    | Bool(b: bool)
    | Num(text: string)
    | Str(s: string)
    | Arr(items: seq<JS>)
    | Obj(members: seq<Member>)

  /** A property of an object, in the order in which the object was filled. */
  datatype Member = Member(key: string, value: JS)

  /** The value that is written as text. */
  datatype Json =
    | JNull
    | JBool(b: bool)
    | JNum(text: string)
    | JStr(s: string)
    | JArr(items: seq<Json>)
    | JObj(fields: seq<Field>)

  datatype Field = Field(name: string, value: Json)

  // ----- the text of a JSON value

  predicate NumChar(c: char) {
    '0' <= c <= '9' || c == '-' || c == '+' || c == '.' || c == 'e'
  }

  predicate NumText(s: string) {
    s != "" && ('0' <= s[0] <= '9' || s[0] == '-') && forall i :: 0 <= i < |s| ==> NumChar(s[i])
  }

  function HexDigit(n: nat): char
    requires n < 16
  {
    if n < 10 then '0' + n as char else 'a' + (n - 10) as char
  }

  /** One character of a string, escaped as in JSON text. */
  function Escaped(c: char): string {
    if c == '"' then "\\\""
    else if c == '\\' then "\\\\"
    else if c == '\U{08}' then "\\b"
    else if c == '\U{0C}' then "\\f"
    else if c == '\n' then "\\n"
    else if c == '\r' then "\\r"
    else if c == '\t' then "\\t"
    else if c < ' ' then ['\\', 'u', '0', '0', HexDigit(c as nat / 16), HexDigit(c as nat % 16)]
    else [c]
  }

  // Each text function takes the text that follows, so that a text is read off from the left.

  /** The characters of a string, its closing quote and what follows. */
  function StrTail(s: string, rest: string): string {
    if s == "" then "\"" + rest else Escaped(s[0]) + StrTail(s[1..], rest)
  }

  function TextThen(v: Json, rest: string): string
    decreases v, 1
  {
    match v
    case JNull => "null" + rest
    case JBool(b) => (if b then "true" else "false") + rest
    case JNum(text) => text + rest
    case JStr(s) => "\"" + StrTail(s, rest)
    case JArr(items) => "[" + if items == [] then "]" + rest else TextThen(items[0], ArrTail(items[1..], rest))
    case JObj(fields) => "{" + if fields == [] then "}" + rest else FieldText(fields[0], TextThen(fields[0].value, ObjTail(fields[1..], rest)))
  }

  function FieldText(f: Field, valueText: string): string {
    "\"" + StrTail(f.name, ":" + valueText)
  }

  /** The items after the first one, the closing bracket and what follows. */
  function ArrTail(items: seq<Json>, rest: string): string
    decreases items, 0
  {
    if items == [] then "]" + rest else "," + TextThen(items[0], ArrTail(items[1..], rest))
  }

  /** The fields after the first one, the closing brace and what follows. */
  function ObjTail(fields: seq<Field>, rest: string): string
    decreases fields, 0
  {
    if fields == [] then "}" + rest
    else "," + FieldText(fields[0], TextThen(fields[0].value, ObjTail(fields[1..], rest)))
  }

  function Text(v: Json): string {
    TextThen(v, "")
  }

  // ----- a text has one reading

  /** The numbers of the value have the text of a number. */
  predicate Written(v: Json)
    decreases v, 1
  {
    match v
    case JNum(text) => NumText(text)
    case JArr(items) => WrittenItems(items)
    case JObj(fields) => WrittenFields(fields)
    case _ => true
  }

  predicate WrittenItems(items: seq<Json>)
    decreases items, 0
  {
    forall i :: 0 <= i < |items| ==> Written(items[i])
  }

  predicate WrittenFields(fields: seq<Field>)
    decreases fields, 0
  {
    forall i :: 0 <= i < |fields| ==> Written(fields[i].value)
  }

  lemma {:induction false} SameRest(a: string, x: string, b: string, y: string)
    requires a + x == b + y && |a| == |b|
    ensures a == b && x == y
  {
    assert (a + x)[..|a|] == a && (b + y)[..|b|] == b;
    assert (a + x)[|a|..] == x && (b + y)[|b|..] == y;
  }

  lemma {:induction false} EscapedHasOneReading(c: char, x: string, d: char, y: string)
    requires Escaped(c) + x == Escaped(d) + y
    ensures c == d && x == y
  {
    var a, b := Escaped(c), Escaped(d);
    var s := a + x;
    assert s[0] == a[0] && s[0] == b[0];
    if |a| >= 2 { assert s[1] == a[1]; }
    if |b| >= 2 { assert s[1] == b[1]; }
    if |a| == 6 && |b| == 6 {
      assert s[4] == a[4] && s[4] == b[4] && s[5] == a[5] && s[5] == b[5];
    }
    SameRest(a, x, b, y);
  }

  lemma {:induction false} StrTailStart(s: string, rest: string)
    ensures StrTail(s, rest) != "" && (StrTail(s, rest)[0] == '"' <==> s == "")
  {
    if s != "" { assert StrTail(s, rest)[0] == Escaped(s[0])[0]; }
  }

  lemma {:induction false} StrHasOneReading(s: string, x: string, t: string, y: string)
    requires StrTail(s, x) == StrTail(t, y)
    ensures s == t && x == y
    decreases |s|
  {
    StrTailStart(s, x);
    StrTailStart(t, y);
    if s == "" {
      SameRest("\"", x, "\"", y);
    } else {
      EscapedHasOneReading(s[0], StrTail(s[1..], x), t[0], StrTail(t[1..], y));
      StrHasOneReading(s[1..], x, t[1..], y);
      assert s == [s[0]] + s[1..] && t == [t[0]] + t[1..];
    }
  }

  /** What follows a value does not continue a number. */
  predicate Delimited(rest: string) {
    rest == "" || !NumChar(rest[0])
  }

  lemma {:induction false} ShorterNumber(a: string, x: string, b: string, y: string)
    requires NumText(b) && Delimited(x) && |a| < |b|
    ensures a + x != b + y
  {
    assert (b + y)[|a|] == b[|a|];
    if x != "" { assert (a + x)[|a|] == x[0]; }
  }

  lemma {:induction false} NumHasOneReading(a: string, x: string, b: string, y: string)
    requires NumText(a) && NumText(b) && Delimited(x) && Delimited(y) && a + x == b + y
    ensures a == b && x == y
  {
    if |a| < |b| { ShorterNumber(a, x, b, y); }
    if |b| < |a| { ShorterNumber(b, y, a, x); }
    SameRest(a, x, b, y);
  }

  lemma {:induction false} FirstChar(v: Json, rest: string)
    requires Written(v)
    ensures var s := TextThen(v, rest);
            && s != ""
            && (v.JNull? <==> s[0] == 'n') && (v.JBool? <==> s[0] == 't' || s[0] == 'f')
            && (v.JNum? <==> '0' <= s[0] <= '9' || s[0] == '-')
            && (v.JStr? <==> s[0] == '"') && (v.JArr? <==> s[0] == '[') && (v.JObj? <==> s[0] == '{')
            && s[0] != ']' && s[0] != '}' && s[0] != ','
  {
    match v
    case JNum(text) => assert (text + rest)[0] == text[0];
    case _ =>
  }

  /** Values that are written alike are the same value: a text is read in one way only. */
  lemma {:induction false} TextHasOneReading(v: Json, x: string, w: Json, y: string)
    requires Written(v) && Written(w) && Delimited(x) && Delimited(y)
    requires TextThen(v, x) == TextThen(w, y)
    ensures v == w && x == y
    decreases v, 1
  {
    FirstChar(v, x);
    FirstChar(w, y);
    match v {
      case JNull => SameRest("null", x, "null", y);
      case JBool(b) =>
        var a, c := if b then "true" else "false", if w.b then "true" else "false";
        assert (a + x)[0] == a[0] && (c + y)[0] == c[0];
        SameRest(a, x, c, y);
      case JNum(text) => NumHasOneReading(text, x, w.text, y);
      case JStr(s) =>
        SameRest("\"", StrTail(s, x), "\"", StrTail(w.s, y));
        StrHasOneReading(s, x, w.s, y);
      case JArr(items) => ItemsHaveOneReading(items, x, w.items, y);
      case JObj(fields) => FieldsHaveOneReading(fields, x, w.fields, y);
    }
  }

  lemma {:induction false} ItemsHaveOneReading(a: seq<Json>, x: string, b: seq<Json>, y: string)
    requires WrittenItems(a) && WrittenItems(b) && Delimited(x) && Delimited(y)
    requires TextThen(JArr(a), x) == TextThen(JArr(b), y)
    ensures a == b && x == y
    decreases a, 2
  {
    var s := if a == [] then "]" + x else TextThen(a[0], ArrTail(a[1..], x));
    var t := if b == [] then "]" + y else TextThen(b[0], ArrTail(b[1..], y));
    SameRest("[", s, "[", t);
    if a != [] { FirstChar(a[0], ArrTail(a[1..], x)); }
    if b != [] { FirstChar(b[0], ArrTail(b[1..], y)); }
    if a == [] || b == [] {
      SameRest("]", x, "]", y);
    } else {
      TextHasOneReading(a[0], ArrTail(a[1..], x), b[0], ArrTail(b[1..], y));
      ArrTailHasOneReading(a[1..], x, b[1..], y);
      assert a == [a[0]] + a[1..] && b == [b[0]] + b[1..];
    }
  }

  lemma {:induction false} ArrTailHasOneReading(a: seq<Json>, x: string, b: seq<Json>, y: string)
    requires WrittenItems(a) && WrittenItems(b) && Delimited(x) && Delimited(y)
    requires ArrTail(a, x) == ArrTail(b, y)
    ensures a == b && x == y
    decreases a, 1
  {
    if a == [] || b == [] {
      assert a == b by { assert ArrTail(a, x)[0] == ArrTail(b, y)[0]; }
      SameRest("]", x, "]", y);
    } else {
      SameRest(",", TextThen(a[0], ArrTail(a[1..], x)), ",", TextThen(b[0], ArrTail(b[1..], y)));
      TextHasOneReading(a[0], ArrTail(a[1..], x), b[0], ArrTail(b[1..], y));
      ArrTailHasOneReading(a[1..], x, b[1..], y);
      assert a == [a[0]] + a[1..] && b == [b[0]] + b[1..];
    }
  }

  lemma {:induction false} FieldHasOneReading(f: Field, x: string, g: Field, y: string)
    requires Written(f.value) && Written(g.value) && Delimited(x) && Delimited(y)
    requires FieldText(f, TextThen(f.value, x)) == FieldText(g, TextThen(g.value, y))
    ensures f == g && x == y
    decreases f, 1
  {
    var s, t := TextThen(f.value, x), TextThen(g.value, y);
    SameRest("\"", StrTail(f.name, ":" + s), "\"", StrTail(g.name, ":" + t));
    StrHasOneReading(f.name, ":" + s, g.name, ":" + t);
    SameRest(":", s, ":", t);
    TextHasOneReading(f.value, x, g.value, y);
  }

  lemma {:induction false} FieldsHaveOneReading(a: seq<Field>, x: string, b: seq<Field>, y: string)
    requires WrittenFields(a) && WrittenFields(b) && Delimited(x) && Delimited(y)
    requires TextThen(JObj(a), x) == TextThen(JObj(b), y)
    ensures a == b && x == y
    decreases a, 2
  {
    var s := if a == [] then "}" + x else FieldText(a[0], TextThen(a[0].value, ObjTail(a[1..], x)));
    var t := if b == [] then "}" + y else FieldText(b[0], TextThen(b[0].value, ObjTail(b[1..], y)));
    SameRest("{", s, "{", t);
    if a == [] || b == [] {
      assert a == b by { assert s[0] == t[0]; }
      SameRest("}", x, "}", y);
    } else {
      FieldHasOneReading(a[0], ObjTail(a[1..], x), b[0], ObjTail(b[1..], y));
      ObjTailHasOneReading(a[1..], x, b[1..], y);
      assert a == [a[0]] + a[1..] && b == [b[0]] + b[1..];
    }
  }

  lemma {:induction false} ObjTailHasOneReading(a: seq<Field>, x: string, b: seq<Field>, y: string)
    requires WrittenFields(a) && WrittenFields(b) && Delimited(x) && Delimited(y)
    requires ObjTail(a, x) == ObjTail(b, y)
    ensures a == b && x == y
    decreases a, 1
  {
    if a == [] || b == [] {
      assert a == b by { assert ObjTail(a, x)[0] == ObjTail(b, y)[0]; }
      SameRest("}", x, "}", y);
    } else {
      SameRest(",", FieldText(a[0], TextThen(a[0].value, ObjTail(a[1..], x))),
               ",", FieldText(b[0], TextThen(b[0].value, ObjTail(b[1..], y))));
      FieldHasOneReading(a[0], ObjTail(a[1..], x), b[0], ObjTail(b[1..], y));
      ObjTailHasOneReading(a[1..], x, b[1..], y);
      assert a == [a[0]] + a[1..] && b == [b[0]] + b[1..];
    }
  }

  // ----- the canonical value

  /** A decimal text that the host language orders as an array index. */
  predicate IsIndex(key: string) {
    && key != "" && (forall i :: 0 <= i < |key| ==> '0' <= key[i] <= '9')
    && (key[0] == '0' ==> key == "0")
    && (|key| < 10 || (|key| == 10 && (Less(key, "4294967294") || key == "4294967294")))
  }

  predicate IndexLess(a: string, b: string) {
    |a| < |b| || (|a| == |b| && Less(a, b))
  }

  /** Where a new property of this name comes before an existing one: an index before larger indexes and before names. */
  predicate ComesBefore(key: string, other: string) {
    IsIndex(key) && (!IsIndex(other) || IndexLess(key, other))
  }

  /** Sets a property of an ordinary object. */
  function Put(fields: seq<Field>, f: Field): seq<Field> {
    if fields == [] then [f]
    else if fields[0].name == f.name then [f] + fields[1..]
    else if ComesBefore(f.name, fields[0].name) && forall i :: 0 <= i < |fields| ==> fields[i].name != f.name then [f] + fields
    else [fields[0]] + Put(fields[1..], f)
  }

  function PutAll(fields: seq<Field>, more: seq<Field>): seq<Field>
    decreases |more|
  {
    if more == [] then fields else PutAll(Put(fields, more[0]), more[1..])
  }

  function InsertByName(fields: seq<Field>, f: Field): seq<Field> {
    if fields == [] || Less(f.name, fields[0].name) then [f] + fields
    else [fields[0]] + InsertByName(fields[1..], f)
  }

  function SortByName(fields: seq<Field>): seq<Field> {
    if fields == [] then [] else InsertByName(SortByName(fields[1..]), fields[0])
  }

  /** A member that the text does not show: an undefined one, and one that would set the prototype. */
  predicate Hidden(m: Member) {
    m.value.Undefined? || m.key == "__proto__"
  }

  /** The value that the text of a payload shows. An undefined or non-finite item shows as null. */
  function Canonicalize(v: JS): Json
    decreases v, 1
  {
    match v
    case Undefined => JNull
    case Null => JNull
    case NonFinite => JNull
    case Bool(b) => JBool(b)
    case Num(text) => JNum(text)
    case Str(s) => JStr(s)
    case Arr(items) => JArr(CanonicalItems(items))
    case Obj(members) => JObj(PutAll([], SortByName(CanonicalFields(members))))
  }

  function CanonicalItems(items: seq<JS>): (r: seq<Json>)
    ensures |r| == |items|
    decreases items, 0
  {
    if items == [] then [] else [Canonicalize(items[0])] + CanonicalItems(items[1..])
  }

  /** The members that the text shows, in the order of the object. */
  function CanonicalFields(members: seq<Member>): seq<Field>
    decreases members, 0
  {
    if members == [] then []
    else (if Hidden(members[0]) then [] else [Field(members[0].key, Canonicalize(members[0].value))]) + CanonicalFields(members[1..])
  }

  /** `undefined` has no JSON text. */
  function CanonicalJson(v: JS): Option<string> {
    if v.Undefined? then None else Some(Text(Canonicalize(v)))
  }

  // ----- what objects hold

  /** The value of a field, by name. */
  function Get(fields: seq<Field>, name: string): Option<Json> {
    if fields == [] then None else if fields[0].name == name then Some(fields[0].value) else Get(fields[1..], name)
  }

  predicate Distinct(fields: seq<Field>) {
    forall i, j :: 0 <= i < j < |fields| ==> fields[i].name != fields[j].name
  }

  predicate Ordered(fields: seq<Field>) {
    forall i, j :: 0 <= i < j < |fields| ==> Less(fields[i].name, fields[j].name)
  }

  lemma {:induction false} GetFinds(fields: seq<Field>, name: string)
    ensures match Get(fields, name)
            case None => forall i :: 0 <= i < |fields| ==> fields[i].name != name
            case Some(v) => Field(name, v) in fields
  {
    if fields != [] && fields[0].name != name {
      GetFinds(fields[1..], name);
      if Get(fields, name).None? {
        forall i | 0 <= i < |fields| ensures fields[i].name != name {
          if i > 0 { assert fields[i] == fields[1..][i - 1]; }
        }
      }
    }
  }

  lemma {:induction false} GetPut(fields: seq<Field>, f: Field, name: string)
    ensures Get(Put(fields, f), name) == if name == f.name then Some(f.value) else Get(fields, name)
  {
    if fields != [] {
      GetPut(fields[1..], f, name);
    }
  }

  lemma {:induction false} GetPutAll(fields: seq<Field>, more: seq<Field>, name: string)
    requires Distinct(more)
    ensures Get(PutAll(fields, more), name) == if Get(more, name).Some? then Get(more, name) else Get(fields, name)
    decreases |more|
  {
    if more != [] {
      GetPut(fields, more[0], name);
      GetPutAll(Put(fields, more[0]), more[1..], name);
      GetFinds(more[1..], more[0].name);
    }
  }

  lemma {:induction false} GetInsert(fields: seq<Field>, f: Field, name: string)
    requires Get(fields, f.name).None?
    ensures Get(InsertByName(fields, f), name) == if name == f.name then Some(f.value) else Get(fields, name)
  {
    if fields != [] {
      GetInsert(fields[1..], f, name);
    }
  }

  lemma {:induction false} InsertOrdered(fields: seq<Field>, f: Field)
    requires Ordered(fields) && Get(fields, f.name).None?
    ensures Ordered(InsertByName(fields, f))
    ensures forall g :: g in InsertByName(fields, f) ==> g in fields || g == f
  {
    if fields != [] {
      var rest := fields[1..];
      InsertOrdered(rest, f);
      LessIsTotal(f.name, fields[0].name);
      if Less(f.name, fields[0].name) {
        forall i | 0 < i < |fields| ensures Less(f.name, fields[i].name) {
          LessIsTransitive(f.name, fields[0].name, fields[i].name);
        }
      } else {
        var tail := InsertByName(rest, f);
        forall i | 0 <= i < |tail| ensures Less(fields[0].name, tail[i].name) {
          assert tail[i] in tail;
          if tail[i] in rest {
            var j :| 0 <= j < |rest| && rest[j] == tail[i];
            assert fields[j + 1] == tail[i];
          }
        }
      }
    }
  }

  lemma {:induction false} OrderedIsDistinct(fields: seq<Field>)
    requires Ordered(fields)
    ensures Distinct(fields)
  {
    forall i, j | 0 <= i < j < |fields| ensures fields[i].name != fields[j].name {
      LessIsTotal(fields[i].name, fields[j].name);
    }
  }

  /** Sorting orders the fields and keeps what they say. */
  lemma {:induction false} SortKeeps(fields: seq<Field>)
    requires Distinct(fields)
    ensures Ordered(SortByName(fields))
    ensures forall name :: Get(SortByName(fields), name) == Get(fields, name)
  {
    if fields != [] {
      var rest := fields[1..];
      SortKeeps(rest);
      GetFinds(rest, fields[0].name);
      InsertOrdered(SortByName(rest), fields[0]);
      forall name ensures Get(SortByName(fields), name) == Get(fields, name) {
        GetInsert(SortByName(rest), fields[0], name);
      }
    }
  }

  lemma {:induction false} HeadIsFirst(a: seq<Field>, b: seq<Field>)
    requires Ordered(a) && Ordered(b) && a != [] && Get(b, a[0].name).Some?
    ensures b != [] && !Less(a[0].name, b[0].name)
  {
    GetFinds(b, a[0].name);
    var f := Field(a[0].name, Get(b, a[0].name).value);
    var i :| 0 <= i < |b| && b[i] == f;
    LessIsTotal(b[0].name, a[0].name);
  }

  /** Ordered fields that say the same are the same list. */
  lemma {:induction false} OrderedIsUnique(a: seq<Field>, b: seq<Field>)
    requires Ordered(a) && Ordered(b)
    requires forall name :: Get(a, name) == Get(b, name)
    ensures a == b
  {
    OrderedIsDistinct(a);
    OrderedIsDistinct(b);
    if a != [] {
      assert Get(a, a[0].name) == Get(b, a[0].name);
      HeadIsFirst(a, b);
    }
    if b != [] {
      assert Get(a, b[0].name) == Get(b, b[0].name);
      HeadIsFirst(b, a);
    }
    if a != [] && b != [] {
      LessIsTotal(a[0].name, b[0].name);
      forall name ensures Get(a[1..], name) == Get(b[1..], name) {
        GetFinds(a[1..], a[0].name);
        GetFinds(b[1..], b[0].name);
        assert Get(a, name) == Get(b, name);
      }
      OrderedIsUnique(a[1..], b[1..]);
      assert a == [a[0]] + a[1..] && b == [b[0]] + b[1..];
    }
  }

  ghost predicate SaySame(a: seq<Field>, b: seq<Field>) {
    forall name :: Get(a, name) == Get(b, name)
  }

  /** Filling an object with sorted fields keeps what they say. */
  lemma {:induction false} FilledSays(fields: seq<Field>, name: string)
    requires Distinct(fields)
    ensures Get(PutAll([], SortByName(fields)), name) == Get(fields, name)
  {
    SortKeeps(fields);
    OrderedIsDistinct(SortByName(fields));
    GetPutAll([], SortByName(fields), name);
    assert Get(SortByName(fields), name) == Get(fields, name);
  }

  /** Two objects are written alike exactly when they say the same, whatever the order in which they were filled. */
  lemma {:induction false} ObjectsAlike(a: seq<Field>, b: seq<Field>)
    requires Distinct(a) && Distinct(b)
    ensures PutAll([], SortByName(a)) == PutAll([], SortByName(b)) <==> SaySame(a, b)
  {
    if PutAll([], SortByName(a)) == PutAll([], SortByName(b)) {
      forall name ensures Get(a, name) == Get(b, name) {
        FilledSays(a, name);
        FilledSays(b, name);
      }
    }
    if SaySame(a, b) {
      SortKeeps(a);
      SortKeeps(b);
      OrderedIsUnique(SortByName(a), SortByName(b));
    }
  }

  // ----- payloads that differ in nothing that counts

  /** The value of a member that the text shows. */
  function Shown(members: seq<Member>, key: string): (shown: Option<JS>)
    ensures shown.Some? ==> exists i :: 0 <= i < |members| && members[i] == Member(key, shown.value) && !Hidden(members[i])
  {
    if members == [] then None
    else if members[0].key == key && !Hidden(members[0]) then Some(members[0].value)
    else
      var rest := Shown(members[1..], key);
      assert rest.Some? ==> exists i :: 0 <= i < |members[1..]| && members[1..][i] == Member(key, rest.value) && members[1..][i] == members[i + 1];
      rest
  }

  /** Equal but for the order of members, undefined members and items, numbers that JSON cannot write, and a prototype. */
  ghost predicate Same(a: JS, b: JS)
    decreases a
  {
    match a
    case Undefined => b.Undefined? || b.Null? || b.NonFinite?
    case Null => b.Undefined? || b.Null? || b.NonFinite?
    case NonFinite => b.Undefined? || b.Null? || b.NonFinite?
    case Arr(items) => b.Arr? && |b.items| == |items| && forall i :: 0 <= i < |items| ==> Same(items[i], b.items[i])
    case Obj(members) =>
      && b.Obj?
      && forall key ::
           && Shown(members, key).Some? == Shown(b.members, key).Some?
           && (Shown(members, key).Some? ==> Same(Shown(members, key).value, Shown(b.members, key).value))
    case _ => a == b
  }

  /** A value of the host language: numbers have the text of a number, and an object has each key once. */
  predicate Valid(v: JS)
    decreases v
  {
    match v
    case Num(text) => NumText(text)
    case Arr(items) => forall i :: 0 <= i < |items| ==> Valid(items[i])
    case Obj(members) =>
      && (forall i :: 0 <= i < |members| ==> Valid(members[i].value))
      && (forall i, j :: 0 <= i < j < |members| ==> members[i].key != members[j].key)
    case _ => true
  }

  lemma {:induction false} GetCanonical(members: seq<Member>, key: string)
    ensures Get(CanonicalFields(members), key)
         == match Shown(members, key) case None => None case Some(v) => Some(Canonicalize(v))
  {
    if members != [] {
      var m, tail := members[0], CanonicalFields(members[1..]);
      GetCanonical(members[1..], key);
      if Hidden(m) {
        assert [] + tail == tail;
      } else {
        assert ([Field(m.key, Canonicalize(m.value))] + tail)[1..] == tail;
      }
    }
  }

  lemma {:induction false} CanonicalIsDistinct(members: seq<Member>)
    requires forall i, j :: 0 <= i < j < |members| ==> members[i].key != members[j].key
    ensures Distinct(CanonicalFields(members))
    ensures forall f :: f in CanonicalFields(members) ==>
              exists i :: 0 <= i < |members| && members[i].key == f.name && f.value == Canonicalize(members[i].value)
  {
    if members != [] {
      var rest := members[1..];
      CanonicalIsDistinct(rest);
      forall f | f in CanonicalFields(rest)
        ensures exists i :: 0 < i < |members| && members[i].key == f.name && f.value == Canonicalize(members[i].value)
      {
        var i :| 0 <= i < |rest| && rest[i].key == f.name && f.value == Canonicalize(rest[i].value);
        assert members[i + 1] == rest[i];
      }
      var tail := CanonicalFields(rest);
      assert forall i :: 0 <= i < |tail| ==> tail[i] in tail;
    }
  }

  lemma {:induction false} CanonicalItemAt(items: seq<JS>, i: nat)
    requires i < |items|
    ensures CanonicalItems(items)[i] == Canonicalize(items[i])
  {
    if i > 0 { CanonicalItemAt(items[1..], i - 1); }
  }

  /** Two payloads have one canonical value exactly when they differ in nothing that counts. */
  lemma {:induction false} CanonicalIffSame(a: JS, b: JS)
    requires Valid(a) && Valid(b)
    ensures Canonicalize(a) == Canonicalize(b) <==> Same(a, b)
    decreases a, 2
  {
    if a.Arr? && b.Arr? && |a.items| == |b.items| {
      ItemsIffSame(a, b);
    } else if a.Obj? && b.Obj? {
      MembersIffSame(a, b);
    }
  }

  lemma {:induction false} ItemsIffSame(a: JS, b: JS)
    requires Valid(a) && Valid(b) && a.Arr? && b.Arr? && |a.items| == |b.items|
    ensures Canonicalize(a) == Canonicalize(b) <==> Same(a, b)
    decreases a, 0
  {
    forall i | 0 <= i < |a.items|
      ensures CanonicalItems(a.items)[i] == CanonicalItems(b.items)[i] <==> Same(a.items[i], b.items[i])
    {
      CanonicalItemAt(a.items, i);
      CanonicalItemAt(b.items, i);
      CanonicalIffSame(a.items[i], b.items[i]);
    }
  }

  /** One key of two objects: the text shows the same under it exactly when it shows values that are the same. */
  ghost predicate SameUnder(a: JS, b: JS, key: string)
    requires a.Obj? && b.Obj?
  {
    var x, y := Shown(a.members, key), Shown(b.members, key);
    x.Some? == y.Some? && (x.Some? ==> Same(x.value, y.value))
  }

  lemma {:induction false} MemberIffSame(a: JS, b: JS, key: string)
    requires Valid(a) && Valid(b) && a.Obj? && b.Obj?
    ensures Get(CanonicalFields(a.members), key) == Get(CanonicalFields(b.members), key) <==> SameUnder(a, b, key)
    decreases a, 0
  {
    GetCanonical(a.members, key);
    GetCanonical(b.members, key);
    var x, y := Shown(a.members, key), Shown(b.members, key);
    if x.Some? && y.Some? { CanonicalIffSame(x.value, y.value); }
  }

  lemma {:induction false} SameObjects(a: JS, b: JS)
    requires a.Obj? && b.Obj?
    ensures Same(a, b) <==> forall key :: SameUnder(a, b, key)
  {
    if Same(a, b) {
      forall key ensures SameUnder(a, b, key) {
        assert Shown(a.members, key).Some? == Shown(b.members, key).Some?;
      }
    }
    if forall key :: SameUnder(a, b, key) {
      forall key
        ensures Shown(a.members, key).Some? == Shown(b.members, key).Some?
        ensures Shown(a.members, key).Some? ==> Same(Shown(a.members, key).value, Shown(b.members, key).value)
      {
        assert SameUnder(a, b, key);
      }
    }
  }

  lemma {:induction false} MembersIffSame(a: JS, b: JS)
    requires Valid(a) && Valid(b) && a.Obj? && b.Obj?
    ensures Canonicalize(a) == Canonicalize(b) <==> Same(a, b)
    decreases a, 1
  {
    var fa, fb := CanonicalFields(a.members), CanonicalFields(b.members);
    CanonicalIsDistinct(a.members);
    CanonicalIsDistinct(b.members);
    ObjectsAlike(fa, fb);
    SameObjects(a, b);
    forall key ensures Get(fa, key) == Get(fb, key) <==> SameUnder(a, b, key) {
      MemberIffSame(a, b, key);
    }
    hide Same, SameUnder, CanonicalFields, SortByName, PutAll;
    assert SaySame(fa, fb) <==> forall key :: SameUnder(a, b, key);
  }

  lemma {:induction false} PutWritten(fields: seq<Field>, f: Field)
    requires WrittenFields(fields) && Written(f.value)
    ensures WrittenFields(Put(fields, f))
  {
    if fields != [] { PutWritten(fields[1..], f); }
  }

  lemma {:induction false} PutAllWritten(fields: seq<Field>, more: seq<Field>)
    requires WrittenFields(fields) && WrittenFields(more)
    ensures WrittenFields(PutAll(fields, more))
    decreases |more|
  {
    if more != [] {
      PutWritten(fields, more[0]);
      PutAllWritten(Put(fields, more[0]), more[1..]);
    }
  }

  lemma {:induction false} InsertWritten(fields: seq<Field>, f: Field)
    requires WrittenFields(fields) && Written(f.value)
    ensures WrittenFields(InsertByName(fields, f))
  {
    if fields != [] { InsertWritten(fields[1..], f); }
  }

  lemma {:induction false} SortWritten(fields: seq<Field>)
    requires WrittenFields(fields)
    ensures WrittenFields(SortByName(fields))
  {
    if fields != [] {
      SortWritten(fields[1..]);
      InsertWritten(SortByName(fields[1..]), fields[0]);
    }
  }

  lemma {:induction false} CanonicalIsWritten(v: JS)
    requires Valid(v)
    ensures Written(Canonicalize(v))
    decreases v
  {
    match v
    case Arr(items) =>
      forall i | 0 <= i < |items| ensures Written(CanonicalItems(items)[i]) {
        CanonicalItemAt(items, i);
        CanonicalIsWritten(items[i]);
      }
    case Obj(members) =>
      var fields := CanonicalFields(members);
      CanonicalIsDistinct(members);
      forall j | 0 <= j < |fields| ensures Written(fields[j].value) {
        assert fields[j] in fields;
        var i :| 0 <= i < |members| && members[i].key == fields[j].name && fields[j].value == Canonicalize(members[i].value);
        CanonicalIsWritten(members[i].value);
      }
      SortWritten(fields);
      PutAllWritten([], SortByName(fields));
    case _ =>
  }

  /** Two payloads have the same canonical text exactly when they differ in nothing that counts. */
  lemma {:induction false} TextsAgreeIffSame(a: JS, b: JS)
    requires Valid(a) && Valid(b)
    ensures CanonicalJson(a) == CanonicalJson(b) <==> (a.Undefined? == b.Undefined? && Same(a, b))
  {
    CanonicalIffSame(a, b);
    CanonicalIsWritten(a);
    CanonicalIsWritten(b);
    if CanonicalJson(a) == CanonicalJson(b) && !a.Undefined? {
      TextHasOneReading(Canonicalize(a), "", Canonicalize(b), "");
    }
  }
}
