/** String operations the migration splitter, the registry and the guards rely on, as Python's `str` defines them. */
module Text {

  datatype Option<+T> = None | Some(value: T)

  /** Python's `str.isspace` for one character: what `strip` and `split` treat as blank. */
  predicate IsSpace(c: char) {
    || '\t' <= c <= '\r'
    || '\U{1C}' <= c <= ' '
    || c == '\U{85}' || c == '\U{A0}' || c == '\U{1680}'
    || '\U{2000}' <= c <= '\U{200A}'
    || c == '\U{2028}' || c == '\U{2029}' || c == '\U{202F}' || c == '\U{205F}' || c == '\U{3000}'
  }

  predicate Blank(s: string) {
    forall i :: 0 <= i < |s| ==> IsSpace(s[i])
  }

  /** No blank at either end. */
  predicate Trimmed(s: string) {
    s != "" ==> !IsSpace(s[0]) && !IsSpace(s[|s| - 1])
  }

  /** How many blanks `s` starts with. */
  function LeadingBlanks(s: string): (n: nat)
    ensures n <= |s| && (forall i :: 0 <= i < n ==> IsSpace(s[i]))
    ensures n < |s| ==> !IsSpace(s[n])
  {
    if s != "" && IsSpace(s[0]) then 1 + LeadingBlanks(s[1..]) else 0
  }

  /** Where the blanks that end `s` begin. */
  function ContentEnd(s: string): (n: nat)
    ensures n <= |s| && (forall i :: n <= i < |s| ==> IsSpace(s[i]))
    ensures n > 0 ==> !IsSpace(s[n - 1])
  {
    if s != "" && IsSpace(s[|s| - 1]) then ContentEnd(s[..|s| - 1]) else |s|
  }

  /** Python's `s.strip()`. */
  function Strip(s: string): (r: string)
    ensures Trimmed(r)
    ensures r == "" <==> Blank(s)
  {
    if LeadingBlanks(s) < ContentEnd(s) then s[LeadingBlanks(s)..ContentEnd(s)] else ""
  }

  /** `strip` takes nothing but blanks, and takes nothing from a trimmed string. */
  lemma StripTakesBlanks(s: string) returns (i: nat, j: nat)
    ensures i <= j <= |s| && Strip(s) == s[i..j] && Blank(s[..i]) && Blank(s[j..])
    ensures Trimmed(s) ==> Strip(s) == s
  {
    i, j := LeadingBlanks(s), ContentEnd(s);
    if i >= j {
      j := i;
    }
  }

  /** Python's `s.split(sep)` for a one-character separator; never the empty list. */
  function Split(s: string, sep: char): (parts: seq<string>)
    ensures |parts| >= 1
    ensures forall i :: 0 <= i < |parts| ==> sep !in parts[i]
  {
    if s == "" then [""]
    else
      var rest := Split(s[1..], sep);
      if s[0] == sep then [""] + rest else [[s[0]] + rest[0]] + rest[1..]
  }

  /** Python's `sep.join(parts)`. */
  function Join(parts: seq<string>, sep: string): string {
    if parts == [] then ""
    else if |parts| == 1 then parts[0]
    else parts[0] + sep + Join(parts[1..], sep)
  }

  lemma JoinConcat(a: seq<string>, b: seq<string>, sep: string)
    requires a != [] && b != []
    ensures Join(a + b, sep) == Join(a, sep) + sep + Join(b, sep)
  {
    if |a| == 1 {
      assert (a + b)[1..] == b;
    } else {
      assert (a + b)[1..] == a[1..] + b;
    }
  }

  /** `split` and `join` are inverse. */
  lemma {:induction false} JoinSplit(s: string, sep: char)
    ensures Join(Split(s, sep), [sep]) == s
  {
    if s != "" {
      var rest := Split(s[1..], sep);
      JoinSplit(s[1..], sep);
      if s[0] == sep {
        assert Split(s, sep)[1..] == rest;
      } else {
        assert Split(s, sep)[1..] == rest[1..];
      }
    }
  }

  lemma {:induction false} SplitAt(a: string, b: string, sep: char)
    ensures Split(a + [sep] + b, sep) == Split(a, sep) + Split(b, sep)
  {
    if a == "" {
      assert (a + [sep] + b)[1..] == b;
    } else {
      assert (a + [sep] + b)[1..] == a[1..] + [sep] + b;
      SplitAt(a[1..], b, sep);
    }
  }

  lemma {:induction false} SplitNone(s: string, sep: char)
    requires sep !in s
    ensures Split(s, sep) == [s]
  {
    if s != "" {
      SplitNone(s[1..], sep);
      assert Split(s[1..], sep)[0] == s[1..];
      assert [s[0]] + s[1..] == s;
    }
  }

  /** ASCII `lower()`. */
  function Lower(s: string): (r: string)
    ensures |r| == |s|
  {
    seq(|s|, i requires 0 <= i < |s| => if 'A' <= s[i] <= 'Z' then s[i] - 'A' + 'a' else s[i])
  }

  // ---------- Numbers as text ----------

  function DigitChar(d: nat): char
    requires d < 10
  {
    '0' + d as char
  }

  function Decimal(n: nat): (s: string)
    ensures s != "" && (|s| == 1 <==> n < 10)
    ensures forall i :: 0 <= i < |s| ==> '0' <= s[i] <= '9'
  {
    if n < 10 then [DigitChar(n)] else Decimal(n / 10) + [DigitChar(n % 10)]
  }

  /** Python's `str(n)`. */
  function IntText(n: int): string {
    if n < 0 then "-" + Decimal(-n) else Decimal(n)
  }

  lemma {:induction false} DecimalInjective(a: nat, b: nat)
    requires Decimal(a) == Decimal(b)
    ensures a == b
  {
    var s := Decimal(a);
    var last := s[|s| - 1];
    assert last == DigitChar(a % 10) == DigitChar(b % 10);
    if a >= 10 {
      assert Decimal(a / 10) == s[..|s| - 1] == Decimal(b / 10);
      DecimalInjective(a / 10, b / 10);
    }
  }

  lemma IntTextInjective(a: int, b: int)
    requires IntText(a) == IntText(b)
    ensures a == b
  {
    assert (a < 0 <==> IntText(a)[0] == '-') && (b < 0 <==> IntText(b)[0] == '-');
    if a < 0 {
      assert IntText(a)[1..] == Decimal(-a) && IntText(b)[1..] == Decimal(-b);
      DecimalInjective(-a, -b);
    } else {
      DecimalInjective(a, b);
    }
  }

  // ---------- Ordered names ----------

  /** Python's `<` on `str`: lexicographic by code point. */
  predicate Less(a: string, b: string) {
    b != "" && (a == "" || a[0] < b[0] || (a[0] == b[0] && Less(a[1..], b[1..])))
  }

  predicate StrictlySorted(names: seq<string>) {
    forall i, j :: 0 <= i < j < |names| ==> Less(names[i], names[j])
  }

  /** `names` is what `sorted(members)` returns. */
  ghost predicate SortedListing(names: seq<string>, members: set<string>) {
    StrictlySorted(names) && (forall n :: n in names <==> n in members)
  }

  lemma {:induction false} LessTotal(a: string, b: string)
    ensures a == b || Less(a, b) || Less(b, a)
    ensures !(Less(a, b) && Less(b, a)) && !Less(a, a)
  {
    if a != "" && b != "" {
      LessTotal(a[1..], b[1..]);
      assert a == [a[0]] + a[1..] && b == [b[0]] + b[1..];
    }
    if a != "" {
      LessTotal(a[1..], a[1..]);
    }
  }

  lemma {:induction false} LessTransitive(a: string, b: string, c: string)
    requires Less(a, b) && Less(b, c)
    ensures Less(a, c)
  {
    if a != "" && a[0] == b[0] == c[0] {
      LessTransitive(a[1..], b[1..], c[1..]);
    }
  }

  /** A set has one sorted listing. */
  lemma {:induction false} SortedListingUnique(a: seq<string>, b: seq<string>, members: set<string>)
    requires SortedListing(a, members) && SortedListing(b, members)
    ensures a == b
  {
    EmptyListing(a, members);
    EmptyListing(b, members);
    if a != [] && b != [] {
      SameHead(a, b, members);
      var rest := members - {a[0]};
      SortedListingTail(a, members);
      SortedListingTail(b, members);
      SortedListingUnique(a[1..], b[1..], rest);
      assert a == [a[0]] + a[1..] && b == [b[0]] + b[1..];
    }
  }

  lemma EmptyListing(a: seq<string>, members: set<string>)
    requires SortedListing(a, members)
    ensures a == [] <==> members == {}
  {
    if a != [] {
      assert a[0] in members;
    }
  }

  lemma SameHead(a: seq<string>, b: seq<string>, members: set<string>)
    requires a != [] && b != [] && SortedListing(a, members) && SortedListing(b, members)
    ensures a[0] == b[0]
  {
    assert a[0] in members && b[0] in members;
    var i :| 0 <= i < |b| && b[i] == a[0];
    var j :| 0 <= j < |a| && a[j] == b[0];
    LessTotal(a[0], b[0]);
  }

  lemma SortedListingTail(a: seq<string>, members: set<string>)
    requires a != [] && SortedListing(a, members)
    ensures SortedListing(a[1..], members - {a[0]})
  {
    forall n ensures n in a[1..] <==> n in members - {a[0]} {
      LessTotal(a[0], a[0]);
      if n in a[1..] {
        var i :| 0 <= i < |a[1..]| && a[1..][i] == n;
        assert n == a[i + 1];
      }
      if n in members - {a[0]} {
        var i :| 0 <= i < |a| && a[i] == n;
        assert a[1..][i - 1] == n;
      }
    }
  }

  function Insert(names: seq<string>, n: string): (r: seq<string>)
    requires StrictlySorted(names) && n !in names
    ensures forall x :: x in r <==> x in names || x == n
    ensures StrictlySorted(r)
  {
    if names == [] then [n]
    else
      assert names == [names[0]] + names[1..];
      LessTotal(n, names[0]);
      if Less(n, names[0]) then
        assert forall j :: 0 <= j < |names| ==> Less(n, names[j]) by {
          forall j | 0 < j < |names| ensures Less(n, names[j]) {
            LessTransitive(n, names[0], names[j]);
          }
        }
        [n] + names
      else
        var rest := Insert(names[1..], n);
        assert forall x :: x in rest ==> Less(names[0], x) by {
          forall x | x in rest ensures Less(names[0], x) {
            if x != n {
              var i :| 0 <= i < |names[1..]| && names[1..][i] == x;
              assert x == names[i + 1];
            }
          }
        }
        [names[0]] + rest
  }

  /** `sorted(members)`: the members are met in any order. */
  method Sorted(members: set<string>) returns (names: seq<string>)
    ensures SortedListing(names, members)
  {
    names := [];
    var todo := members;
    while todo != {}
      invariant todo <= members
      invariant SortedListing(names, members - todo)
      decreases |todo|
    {
      var n :| n in todo;
      names := Insert(names, n);
      todo := todo - {n};
    }
  }
}
