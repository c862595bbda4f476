/**
 * What the canonical text of a payload says, by a reader of JSON text: the payload itself, with each object in the order of its
 * properties, and without what JSON text does not show.
 */
module CanonicalPayload {
  import opened Texts
  import opened Wrappers
  import opened Canonical
  import opened JsonReader

  /** The order of the properties of an object that was filled in the order of the names: indexes first, then names. */
  predicate PropertyBefore(a: string, b: string) {
    if IsIndex(a) then !IsIndex(b) || IndexLess(a, b) else !IsIndex(b) && Less(a, b)
  }

  predicate InPropertyOrder(fields: seq<Field>) {
    forall i, j :: 0 <= i < j < |fields| ==> PropertyBefore(fields[i].name, fields[j].name)
  }

  /**
   * The value shows the payload: a truth value, a number and a text as they are, `undefined`, null and a number that JSON cannot
   * write as null, the items of an array one by one, and exactly the members that can be shown, in property order.
   */
  ghost predicate Shows(v: JS, j: Json)
    decreases v
  {
    match v
    case Undefined => j == JNull
    case Null => j == JNull
    case NonFinite => j == JNull
    case Bool(b) => j == JBool(b)
    case Num(text) => j == JNum(text)
    case Str(s) => j == JStr(s)
    case Arr(items) => j.JArr? && |j.items| == |items| && forall i :: 0 <= i < |items| ==> Shows(items[i], j.items[i])
    case Obj(members) =>
      && j.JObj? && InPropertyOrder(j.fields)
      && (forall m :: m in members && !m.value.Undefined? && m.key != "__proto__" ==>
            Get(j.fields, m.key).Some? && Shows(m.value, Get(j.fields, m.key).value))
      && forall name :: Get(j.fields, name).Some? ==>
           exists m :: m in members && m.key == name && !m.value.Undefined? && name != "__proto__"
  }

  // ----- an index is a number

  predicate Digits(s: string) {
    forall i :: 0 <= i < |s| ==> '0' <= s[i] <= '9'
  }

  function Pow10(n: nat): (p: nat)
    ensures p >= 1
  {
    if n == 0 then 1 else 10 * Pow10(n - 1)
  }

  function Digit(c: char): (d: nat)
    requires '0' <= c <= '9'
    ensures d <= 9
  {
    c as nat - '0' as nat
  }

  /** The number that decimal digits name. */
  function Number(s: string): nat
    requires Digits(s)
  {
    if s == "" then 0 else Digit(s[0]) * Pow10(|s| - 1) + Number(s[1..])
  }

  lemma {:induction false} NumberBound(s: string)
    requires Digits(s)
    ensures Number(s) < Pow10(|s|)
  {
    if s != "" {
      NumberBound(s[1..]);
      var d, p := Digit(s[0]), Pow10(|s| - 1);
      Scaled(d, 9, p);
    }
  }

  lemma Scaled(a: nat, b: nat, p: nat)
    requires a <= b
    ensures a * p <= b * p
  {
  }

  lemma {:induction false} MoreDigits(n: nat, m: nat)
    requires n <= m
    ensures Pow10(n) <= Pow10(m)
  {
    if n < m { MoreDigits(n, m - 1); }
  }

  lemma {:induction false} LeadingDigit(s: string)
    requires Digits(s) && s != "" && s[0] != '0'
    ensures Number(s) >= Pow10(|s| - 1)
  {
    Scaled(1, Digit(s[0]), Pow10(|s| - 1));
  }

  lemma FirstDecides(x: nat, y: nat, p: nat, r: nat, t: nat)
    requires r < p && t < p
    ensures x * p + r < y * p + t <==> x < y || (x == y && r < t)
    ensures x * p + r == y * p + t <==> x == y && r == t
  {
    if x < y { Scaled(x + 1, y, p); } else if y < x { Scaled(y + 1, x, p); }
  }

  /** On texts of one length the order of characters is the order of the numbers. */
  lemma {:induction false} LessIsNumeric(a: string, b: string)
    requires Digits(a) && Digits(b) && |a| == |b|
    ensures Less(a, b) <==> Number(a) < Number(b)
    ensures a == b <==> Number(a) == Number(b)
  {
    if a != "" {
      var x, y, p := Digit(a[0]), Digit(b[0]), Pow10(|a| - 1);
      LessIsNumeric(a[1..], b[1..]);
      NumberBound(a[1..]);
      NumberBound(b[1..]);
      FirstDecides(x, y, p, Number(a[1..]), Number(b[1..]));
      assert x == y <==> a[0] == b[0];
      assert a == [a[0]] + a[1..] && b == [b[0]] + b[1..];
      hide Number, Pow10;
    }
  }

  /** A text that stands for a whole number in its shortest form. */
  predicate Shortest(key: string) {
    key != "" && Digits(key) && (key[0] == '0' ==> key == "0")
  }

  /** An index is such a number up to 4294967294, and indexes are ordered as numbers. */
  lemma {:induction false} IndexIff(key: string)
    ensures IsIndex(key) <==> Shortest(key) && Number(key) <= 4294967294
  {
    if Shortest(key) {
      var last := "4294967294";
      NumberBound(key);
      LastIndex();
      if |key| < 10 {
        MoreDigits(|key|, 9);
        assert Pow10(9) == 1000000000 by { PowersOfTen(); }
      } else if |key| == 10 {
        LessIsNumeric(key, last);
      } else {
        LeadingDigit(key);
        MoreDigits(10, |key| - 1);
        assert Pow10(10) == 10000000000 by { PowersOfTen(); }
      }
    }
  }

  lemma PowersOfTen()
    ensures Pow10(9) == 1000000000 && Pow10(10) == 10000000000
  {
    assert Pow10(3) == 1000;
    assert Pow10(6) == 1000000;
  }

  lemma {:induction false} Prepend(c: char, rest: string, n: nat, p: nat)
    requires '0' <= c <= '9' && Digits(rest) && Number(rest) == n && Pow10(|rest|) == p
    ensures Digits([c] + rest) && Number([c] + rest) == Digit(c) * p + n && Pow10(|[c] + rest|) == 10 * p
  {
    assert ([c] + rest)[1..] == rest;
  }

  lemma {:induction false} LastIndex()
    ensures Digits("4294967294") && |"4294967294"| == 10 && Number("4294967294") == 4294967294
  {
    var low := LowDigits();
    hide Number, Digits, Pow10;
    Prepend('9', low, 67294, 100000);
    var a := ['9'] + low;
    Prepend('4', a, 967294, 1000000);
    var b := ['4'] + a;
    Prepend('9', b, 4967294, 10000000);
    var c := ['9'] + b;
    Prepend('2', c, 94967294, 100000000);
    var d := ['2'] + c;
    Prepend('4', d, 294967294, 1000000000);
    assert ['4'] + d == "4294967294";
  }

  lemma {:induction false} LowDigits() returns (s: string)
    ensures s == "67294" && Digits(s) && Number(s) == 67294 && Pow10(|s|) == 100000
  {
    EmptyNumber();
    hide Number, Digits, Pow10;
    Prepend('4', "", 0, 1);
    var a := ['4'] + "";
    Prepend('9', a, 4, 10);
    var b := ['9'] + a;
    Prepend('2', b, 94, 100);
    var c := ['2'] + b;
    Prepend('7', c, 294, 1000);
    var d := ['7'] + c;
    Prepend('6', d, 7294, 10000);
    s := ['6'] + d;
  }

  lemma EmptyNumber()
    ensures Digits("") && Number("") == 0 && Pow10(|""|) == 1
  {
  }

  lemma {:induction false} IndexOrderIsNumeric(a: string, b: string)
    requires IsIndex(a) && IsIndex(b)
    ensures IndexLess(a, b) <==> Number(a) < Number(b)
  {
    NumberBound(a);
    NumberBound(b);
    if |a| < |b| { ShorterIsLess(a, b); }
    if |b| < |a| { ShorterIsLess(b, a); }
    if |a| == |b| { LessIsNumeric(a, b); }
  }

  lemma {:induction false} ShorterIsLess(a: string, b: string)
    requires Shortest(a) && Shortest(b) && |a| < |b|
    ensures Number(a) < Number(b)
  {
    NumberBound(a);
    LeadingDigit(b);
    MoreDigits(|a|, |b| - 1);
  }

  // ----- the order of the properties

  lemma {:induction false} IndexLessChains(a: string, b: string, c: string)
    requires IndexLess(a, b) && IndexLess(b, c)
    ensures IndexLess(a, c)
  {
    if |a| == |b| == |c| { LessIsTransitive(a, b, c); }
  }

  lemma {:induction false} FirstStaysFirst(fields: seq<Field>, name: string, i: nat)
    requires InPropertyOrder(fields) && i < |fields| && ComesBefore(name, fields[0].name)
    ensures PropertyBefore(name, fields[i].name)
  {
    if i > 0 {
      assert PropertyBefore(fields[0].name, fields[i].name);
      if IsIndex(fields[i].name) { IndexLessChains(name, fields[0].name, fields[i].name); }
    }
  }

  /** A property that is set after all properties with lesser names keeps the order. */
  lemma {:induction false} PutKeepsOrder(fields: seq<Field>, f: Field)
    requires InPropertyOrder(fields) && forall g :: g in fields ==> Less(g.name, f.name)
    ensures InPropertyOrder(Put(fields, f)) && forall g :: g in Put(fields, f) ==> g in fields || g == f
  {
    if fields != [] {
      var first, rest := fields[0], fields[1..];
      LessIsTotal(first.name, f.name);
      assert first in fields;
      assert forall i :: 0 <= i < |rest| ==> rest[i] == fields[i + 1];
      if ComesBefore(f.name, first.name) && forall i :: 0 <= i < |fields| ==> fields[i].name != f.name {
        forall i | 0 <= i < |fields| ensures PropertyBefore(f.name, fields[i].name) { FirstStaysFirst(fields, f.name, i); }
      } else {
        forall i | 0 <= i < |fields| ensures fields[i].name != f.name {
          assert fields[i] in fields;
          LessIsTotal(fields[i].name, f.name);
        }
        PutKeepsOrder(rest, f);
        var tail := Put(rest, f);
        forall i | 0 <= i < |tail| ensures PropertyBefore(first.name, tail[i].name) {
          assert tail[i] in tail;
          if tail[i] != f {
            var k :| 0 <= k < |rest| && rest[k] == tail[i];
            assert PropertyBefore(fields[0].name, fields[k + 1].name);
          }
        }
      }
    }
  }

  lemma {:induction false} PutAllKeepsOrder(fields: seq<Field>, more: seq<Field>)
    requires InPropertyOrder(fields) && Ordered(more)
    requires forall g, i :: g in fields && 0 <= i < |more| ==> Less(g.name, more[i].name)
    ensures InPropertyOrder(PutAll(fields, more))
    decreases |more|
  {
    if more != [] {
      PutKeepsOrder(fields, more[0]);
      assert forall i :: 0 <= i < |more[1..]| ==> more[1..][i] == more[i + 1];
      PutAllKeepsOrder(Put(fields, more[0]), more[1..]);
    }
  }

  // ----- what the canonical value shows

  /** The canonical value shows its payload. */
  lemma {:induction false} CanonicalShows(v: JS)
    requires Valid(v)
    ensures Shows(v, Canonicalize(v))
    decreases v, 1
  {
    match v
    case Arr(items) =>
      forall i | 0 <= i < |items| ensures Shows(items[i], CanonicalItems(items)[i]) {
        CanonicalItemAt(items, i);
        CanonicalShows(items[i]);
      }
    case Obj(members) => ObjectShows(v);
    case _ =>
  }

  lemma {:induction false} ObjectShows(v: JS)
    requires Valid(v) && v.Obj?
    ensures Shows(v, Canonicalize(v))
    decreases v, 0
  {
    var members := v.members;
    var fields := CanonicalFields(members);
    var filled := PutAll([], SortByName(fields));
    CanonicalIsDistinct(members);
    SortKeeps(fields);
    PutAllKeepsOrder([], SortByName(fields));
    forall name ensures Get(filled, name) == match Shown(members, name) case None => None case Some(x) => Some(Canonicalize(x)) {
      FilledSays(fields, name);
      GetCanonical(members, name);
    }
    forall m | m in members && !m.value.Undefined? && m.key != "__proto__"
      ensures Get(filled, m.key).Some? && Shows(m.value, Get(filled, m.key).value)
    {
      ShownIs(members, m);
      CanonicalShows(m.value);
    }
    forall name | Get(filled, name).Some?
      ensures exists m :: m in members && m.key == name && !m.value.Undefined? && name != "__proto__"
    {
      var i :| 0 <= i < |members| && members[i] == Member(name, Shown(members, name).value) && !Hidden(members[i]);
      assert members[i] in members;
    }
  }

  lemma {:induction false} ShownIs(members: seq<Member>, m: Member)
    requires m in members && !m.value.Undefined? && m.key != "__proto__"
    requires forall i, j :: 0 <= i < j < |members| ==> members[i].key != members[j].key
    ensures Shown(members, m.key) == Some(m.value)
  {
    var k :| 0 <= k < |members| && members[k] == m;
    if k > 0 {
      assert members[0].key != m.key;
      assert m in members[1..];
      ShownIs(members[1..], m);
    }
  }

  /** The canonical text of every payload but `undefined` parses, and to a value that shows the payload. */
  lemma {:induction false} CanonicalTextShows(v: JS) returns (j: Json)
    requires Valid(v) && !v.Undefined?
    ensures CanonicalJson(v).Some? && Parse(CanonicalJson(v).value) == Some(j) && Shows(v, j)
  {
    j := Canonicalize(v);
    CanonicalIsWritten(v);
    TextParsesBack(j);
    CanonicalShows(v);
  }
}
