/** Text operations of the host language that several modules use. */
module Texts {
  /** The white space of the host language: what `\s` matches and `trim` removes. */
  predicate IsSpace(c: char) {
    || c == ' ' || c == '\t' || c == '\n' || c == '\r' || c == '\U{0B}' || c == '\U{0C}'
    || c == '\U{A0}' || c == '\U{1680}' || '\U{2000}' <= c <= '\U{200A}' || c == '\U{2028}'
    || c == '\U{2029}' || c == '\U{202F}' || c == '\U{205F}' || c == '\U{3000}' || c == '\U{FEFF}'
  }

  function TrimStart(s: string): string {
    if s != "" && IsSpace(s[0]) then TrimStart(s[1..]) else s
  }

  function TrimEnd(s: string): string {
    if s != "" && IsSpace(s[|s| - 1]) then TrimEnd(s[..|s| - 1]) else s
  }

  function Trim(s: string): string {
    TrimEnd(TrimStart(s))
  }

  predicate AllSpace(s: string) {
    forall i :: 0 <= i < |s| ==> IsSpace(s[i])
  }

  lemma {:induction false} TrimStartIs(s: string) returns (a: string)
    ensures s == a + TrimStart(s) && AllSpace(a) && (TrimStart(s) != "" ==> !IsSpace(TrimStart(s)[0]))
  {
    if s != "" && IsSpace(s[0]) {
      var rest := TrimStartIs(s[1..]);
      a := [s[0]] + rest;
    } else {
      a := "";
    }
  }

  lemma {:induction false} TrimEndIs(s: string) returns (b: string)
    ensures s == TrimEnd(s) + b && AllSpace(b) && (TrimEnd(s) != "" ==> !IsSpace(TrimEnd(s)[|TrimEnd(s)| - 1]))
  {
    if s != "" && IsSpace(s[|s| - 1]) {
      var front := TrimEndIs(s[..|s| - 1]);
      b := front + [s[|s| - 1]];
    } else {
      b := "";
    }
  }

  /** A trimmed text is the text without the white space at its two ends. */
  lemma {:induction false} TrimIs(s: string) returns (a: string, b: string)
    ensures s == a + Trim(s) + b && AllSpace(a) && AllSpace(b)
    ensures Trim(s) != "" ==> !IsSpace(Trim(s)[0]) && !IsSpace(Trim(s)[|Trim(s)| - 1])
  {
    a := TrimStartIs(s);
    b := TrimEndIs(TrimStart(s));
    assert Trim(s) != "" ==> Trim(s)[0] == TrimStart(s)[0];
  }

  /** A trim removes nothing but white space. */
  lemma {:induction false} TrimKeeps(s: string, c: char)
    requires c in s && !IsSpace(c)
    ensures c in Trim(s)
  {
    TrimStartKeepsChar(s, c);
    TrimEndKeepsChar(TrimStart(s), c);
  }

  lemma {:induction false} TrimStartKeepsChar(s: string, c: char)
    requires c in s && !IsSpace(c)
    ensures c in TrimStart(s)
  {
    if IsSpace(s[0]) { TrimStartKeepsChar(s[1..], c); }
  }

  lemma {:induction false} TrimEndKeepsChar(s: string, c: char)
    requires c in s && !IsSpace(c)
    ensures c in TrimEnd(s)
  {
    if IsSpace(s[|s| - 1]) { TrimEndKeepsChar(s[..|s| - 1], c); }
  }

  predicate Starts(s: string, prefix: string) {
    |prefix| <= |s| && s[..|prefix|] == prefix
  }

  /** The parts of a text between the separators. */
  function Split(s: string, separator: char): (parts: seq<string>)
    ensures parts != []
  {
    if s == "" then [""]
    else
      var rest := Split(s[1..], separator);
      if s[0] == separator then [""] + rest else [[s[0]] + rest[0]] + rest[1..]
  }

  /** A text without the separator is one part. */
  lemma {:induction false} SplitOne(s: string, separator: char)
    requires separator !in s
    ensures Split(s, separator) == [s]
  {
    if s != "" {
      SplitOne(s[1..], separator);
      assert s == [s[0]] + s[1..];
    }
  }

  /** Splitting at one separator splits the two sides. */
  lemma {:induction false} SplitJoin(a: string, b: string, separator: char)
    ensures Split(a + [separator] + b, separator) == Split(a, separator) + Split(b, separator)
  {
    var s := a + [separator] + b;
    if a == "" {
      assert s[1..] == b;
      assert Split(a, separator) == [""];
    } else {
      assert s[0] == a[0] && s[1..] == a[1..] + [separator] + b;
      SplitJoin(a[1..], b, separator);
    }
  }

  /** The parts with a separator between two of them. */
  function Join(parts: seq<string>, separator: char): string
    requires parts != []
  {
    var n := |parts| - 1;
    if n == 0 then parts[0] else Join(parts[..n], separator) + [separator] + parts[n]
  }

  /** Splitting gives the joined parts back when none of them holds the separator. */
  lemma {:induction false} SplitOfJoin(parts: seq<string>, separator: char)
    requires parts != [] && forall i :: 0 <= i < |parts| ==> separator !in parts[i]
    ensures Split(Join(parts, separator), separator) == parts
  {
    var n := |parts| - 1;
    SplitOne(parts[n], separator);
    if n > 0 {
      SplitOfJoin(parts[..n], separator);
      SplitJoin(Join(parts[..n], separator), parts[n], separator);
      assert parts == parts[..n] + [parts[n]];
    }
  }

  /** The parts of a text join to it. */
  lemma {:induction false} JoinOfSplit(s: string, separator: char)
    ensures Join(Split(s, separator), separator) == s
  {
    if s != "" {
      JoinOfSplit(s[1..], separator);
      var rest := Split(s[1..], separator);
      if s[0] == separator {
        JoinAfter("", rest, separator);
        assert s == "" + [separator] + s[1..];
      } else {
        JoinHead([s[0]], rest, separator);
      }
    }
  }

  lemma {:induction false} JoinAfter(head: string, rest: seq<string>, separator: char)
    requires rest != []
    ensures Join([head] + rest, separator) == head + [separator] + Join(rest, separator)
  {
    JoinOfConcat([head], rest, separator);
  }

  /** A text before the first part is before the joined text. */
  lemma {:induction false} JoinHead(head: string, rest: seq<string>, separator: char)
    requires rest != []
    ensures Join([head + rest[0]] + rest[1..], separator) == head + Join(rest, separator)
  {
    if |rest| == 1 {
      assert [head + rest[0]] + rest[1..] == [head + rest[0]];
    } else {
      JoinAfter(head + rest[0], rest[1..], separator);
      JoinAfter(rest[0], rest[1..], separator);
      assert rest == [rest[0]] + rest[1..];
      assert head + rest[0] + [separator] + Join(rest[1..], separator) == head + (rest[0] + [separator] + Join(rest[1..], separator));
    }
  }

  lemma {:induction false} JoinOfConcat(a: seq<string>, b: seq<string>, separator: char)
    requires a != [] && b != []
    ensures Join(a + b, separator) == Join(a, separator) + [separator] + Join(b, separator)
    decreases |b|
  {
    var n := |b| - 1;
    assert (a + b)[|a| + n] == b[n] && (a + b)[..|a| + n] == a + b[..n];
    if n > 0 {
      JoinOfConcat(a, b[..n], separator);
    } else {
      assert a + b[..0] == a;
    }
  }

  lemma {:induction false} SplitParts(s: string, separator: char)
    ensures forall part :: part in Split(s, separator) ==> separator !in part
  {
    if s != "" {
      SplitParts(s[1..], separator);
      var rest := Split(s[1..], separator);
      assert rest[0] in rest;
      forall part | part in Split(s, separator) ensures separator !in part {
        if part != "" && part !in rest { assert part == [s[0]] + rest[0]; }
      }
    }
  }

  /** The order of the default sort, which compares code units. */
  predicate Less(a: string, b: string) {
    if b == "" then false
    else if a == "" then true
    else a[0] < b[0] || (a[0] == b[0] && Less(a[1..], b[1..]))
  }

  lemma {:induction false} LessIsTransitive(a: string, b: string, c: string)
    requires Less(a, b) && Less(b, c)
    ensures Less(a, c)
  {
    if a != "" && a[0] == b[0] && b[0] == c[0] { LessIsTransitive(a[1..], b[1..], c[1..]); }
  }

  lemma {:induction false} LessIsTotal(a: string, b: string)
    ensures Less(a, b) || Less(b, a) || a == b
    ensures !(Less(a, b) && Less(b, a)) && !Less(a, a)
  {
    if a != "" && b != "" && a[0] == b[0] {
      LessIsTotal(a[1..], b[1..]);
      assert a == [a[0]] + a[1..] && b == [b[0]] + b[1..];
    }
    if a != "" { LessIsTotal(a[1..], a[1..]); }
  }
}
