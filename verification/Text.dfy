/** The string operations of Go's strings, strconv and sort packages that the
    release-version labels rely on, with the laws that make them inverses. */
module Text {
  import opened Base

  // ----- membership -----

  predicate AllIn(s: string, p: char -> bool) {
    forall i :: 0 <= i < |s| ==> p(s[i])
  }

  /** The number of bytes of the text in UTF-8, which is what Go calls its length. */
  function Utf8Length(s: string): (n: nat)
    ensures n >= |s|
  {
    if s == "" then 0
    else
      var c := s[0] as int;
      (if c < 0x80 then 1 else if c < 0x800 then 2 else if c < 0x10000 then 3 else 4) + Utf8Length(s[1..])
  }

  lemma AllInConcat(a: string, b: string, p: char -> bool)
    ensures AllIn(a + b, p) <==> AllIn(a, p) && AllIn(b, p)
  {
    var s := a + b;
    assert forall i :: 0 <= i < |a| ==> s[i] == a[i];
    assert forall i :: 0 <= i < |b| ==> s[|a| + i] == b[i];
  }

  // ----- strings.Split and its inverse -----

  function Split(s: string, sep: char): (parts: seq<string>)
    ensures parts != []
  {
    if s == "" then [""]
    else
      var rest := Split(s[1..], sep);
      if s[0] == sep then [""] + rest else [[s[0]] + rest[0]] + rest[1..]
  }

  function Join(parts: seq<string>, sep: char): string {
    if parts == [] then ""
    else if |parts| == 1 then parts[0]
    else parts[0] + [sep] + Join(parts[1..], sep)
  }

  lemma {:induction false} JoinAppend(parts: seq<string>, last: string, sep: char)
    ensures Join(parts + [last], sep) == Join(parts, sep) + (if parts == [] then "" else [sep]) + last
  {
    if |parts| > 0 {
      assert (parts + [last])[1..] == parts[1..] + [last];
      JoinAppend(parts[1..], last, sep);
    }
  }

  predicate Free(parts: seq<string>, sep: char) {
    forall i :: 0 <= i < |parts| ==> sep !in parts[i]
  }

  lemma {:induction false} SplitNone(a: string, sep: char)
    requires sep !in a
    ensures Split(a, sep) == [a]
  {
    if a != "" {
      SplitNone(a[1..], sep);
      assert [a[0]] + a[1..] == a;
    }
  }

  lemma {:induction false} SplitFirst(a: string, b: string, sep: char)
    requires sep !in a
    ensures Split(a + [sep] + b, sep) == [a] + Split(b, sep)
  {
    var s := a + [sep] + b;
    if a == "" {
      assert s[1..] == b;
    } else {
      assert s[1..] == a[1..] + [sep] + b;
      SplitFirst(a[1..], b, sep);
      assert [a[0]] + a[1..] == a;
    }
  }

  lemma {:induction false} SplitJoin(parts: seq<string>, sep: char)
    requires parts != [] && Free(parts, sep)
    ensures Split(Join(parts, sep), sep) == parts
  {
    if |parts| == 1 {
      SplitNone(parts[0], sep);
    } else {
      SplitJoin(parts[1..], sep);
      SplitFirst(parts[0], Join(parts[1..], sep), sep);
    }
  }

  lemma {:induction false} JoinSplit(s: string, sep: char)
    ensures Join(Split(s, sep), sep) == s && Free(Split(s, sep), sep)
  {
    if s != "" {
      JoinSplit(s[1..], sep);
      var rest := Split(s[1..], sep);
      if s[0] == sep {
        assert Split(s, sep)[1..] == rest;
      } else if |rest| > 1 {
        assert Split(s, sep)[1..] == rest[1..];
      }
    }
  }

  lemma {:induction false} JoinAllIn(parts: seq<string>, sep: char, p: char -> bool)
    requires p(sep)
    ensures AllIn(Join(parts, sep), p) <==> forall i :: 0 <= i < |parts| ==> AllIn(parts[i], p)
  {
    if |parts| > 1 {
      var tail := Join(parts[1..], sep);
      JoinAllIn(parts[1..], sep, p);
      AllInConcat(parts[0], [sep], p);
      AllInConcat(parts[0] + [sep], tail, p);
      assert forall i :: 0 < i < |parts| ==> parts[i] == parts[1..][i - 1];
      assert forall i :: 0 <= i < |parts[1..]| ==> parts[1..][i] == parts[i + 1];
    }
  }

  // ----- strings.SplitN(s, sep, 2) -----

  /** The text before and after the first separator, if there is one. */
  function Cut(s: string, sep: char): Option<(string, string)> {
    if s == "" then None
    else if s[0] == sep then Some(("", s[1..]))
    else
      match Cut(s[1..], sep)
      case None => None
      case Some((a, b)) => Some(([s[0]] + a, b))
  }

  lemma {:induction false} CutNone(s: string, sep: char)
    ensures Cut(s, sep).None? <==> sep !in s
  {
    if s != "" {
      CutNone(s[1..], sep);
      assert sep in s <==> s[0] == sep || sep in s[1..];
    }
  }

  lemma {:induction false} CutSome(s: string, sep: char)
    requires Cut(s, sep).Some?
    ensures var (a, b) := Cut(s, sep).value; s == a + [sep] + b && sep !in a
  {
    if s[0] != sep {
      CutSome(s[1..], sep);
    }
  }

  lemma {:induction false} CutAt(a: string, b: string, sep: char)
    requires sep !in a
    ensures Cut(a + [sep] + b, sep) == Some((a, b))
  {
    var s := a + [sep] + b;
    if a == "" {
      assert s[1..] == b;
    } else {
      assert s[1..] == a[1..] + [sep] + b;
      CutAt(a[1..], b, sep);
      assert [a[0]] + a[1..] == a;
    }
  }

  // ----- strings.TrimSpace -----

  /** Unicode white space, as the unicode package defines it. */
  predicate IsSpace(c: char) {
    var n := c as int;
    9 <= n <= 13 || n == 0x20 || n == 0x85 || n == 0xA0 || n == 0x1680 ||
    0x2000 <= n <= 0x200a || n == 0x2028 || n == 0x2029 || n == 0x202f || n == 0x205f || n == 0x3000
  }

  function TrimLeft(s: string): string {
    if s != "" && IsSpace(s[0]) then TrimLeft(s[1..]) else s
  }

  function TrimRight(s: string): string {
    if s != "" && IsSpace(s[|s| - 1]) then TrimRight(s[..|s| - 1]) else s
  }

  function TrimSpace(s: string): string {
    TrimRight(TrimLeft(s))
  }

  predicate Trimmed(s: string) {
    s != "" ==> !IsSpace(s[0]) && !IsSpace(s[|s| - 1])
  }

  lemma {:induction false} TrimRightKeepsHead(s: string)
    ensures s != "" && !IsSpace(s[0]) ==> TrimRight(s) != "" && TrimRight(s)[0] == s[0]
    ensures TrimRight(s) != "" ==> !IsSpace(TrimRight(s)[|TrimRight(s)| - 1])
    ensures TrimRight(s) <= s
  {
    if s != "" && IsSpace(s[|s| - 1]) {
      TrimRightKeepsHead(s[..|s| - 1]);
    }
  }

  lemma {:induction false} TrimLeftHead(s: string)
    ensures TrimLeft(s) != "" ==> !IsSpace(TrimLeft(s)[0])
  {
    if s != "" && IsSpace(s[0]) {
      TrimLeftHead(s[1..]);
    }
  }

  /** Trimming yields trimmed text and leaves trimmed text alone. */
  lemma TrimSpaceTrims(s: string)
    ensures Trimmed(TrimSpace(s))
    ensures Trimmed(s) ==> TrimSpace(s) == s
  {
    TrimLeftHead(s);
    TrimRightKeepsHead(TrimLeft(s));
  }

  lemma {:induction false} TrimLeftCuts(s: string)
    ensures exists a :: AllIn(a, IsSpace) && s == a + TrimLeft(s)
  {
    if s != "" && IsSpace(s[0]) {
      TrimLeftCuts(s[1..]);
      var a :| AllIn(a, IsSpace) && s[1..] == a + TrimLeft(s[1..]);
      assert AllIn([s[0]] + a, IsSpace) && s == ([s[0]] + a) + TrimLeft(s);
    } else {
      assert AllIn("", IsSpace) && s == "" + TrimLeft(s);
    }
  }

  lemma {:induction false} TrimRightCuts(s: string)
    ensures exists b :: AllIn(b, IsSpace) && s == TrimRight(s) + b
  {
    if s != "" && IsSpace(s[|s| - 1]) {
      var n := |s| - 1;
      TrimRightCuts(s[..n]);
      var b :| AllIn(b, IsSpace) && s[..n] == TrimRight(s[..n]) + b;
      assert AllIn(b + [s[n]], IsSpace) && s == TrimRight(s) + (b + [s[n]]);
    } else {
      assert AllIn("", IsSpace) && s == TrimRight(s) + "";
    }
  }

  /** Trimming takes away white space at the two ends and nothing else. */
  lemma TrimSpaceMeans(s: string)
    ensures exists a, b :: AllIn(a, IsSpace) && AllIn(b, IsSpace) && s == a + TrimSpace(s) + b
    ensures Trimmed(TrimSpace(s))
  {
    TrimSpaceTrims(s);
    TrimLeftCuts(s);
    TrimRightCuts(TrimLeft(s));
    var a :| AllIn(a, IsSpace) && s == a + TrimLeft(s);
    var b :| AllIn(b, IsSpace) && TrimLeft(s) == TrimSpace(s) + b;
    assert s == a + TrimSpace(s) + b;
  }

  /** Joining non-empty trimmed parts gives non-empty trimmed text. */
  lemma {:induction false} JoinTrimmed(parts: seq<string>, sep: char)
    requires parts != [] && forall i :: 0 <= i < |parts| ==> parts[i] != "" && Trimmed(parts[i])
    ensures Join(parts, sep) != "" && Trimmed(Join(parts, sep))
  {
    if |parts| > 1 {
      JoinTrimmed(parts[1..], sep);
      var tail := Join(parts[1..], sep);
      var s := parts[0] + [sep] + tail;
      assert s[0] == parts[0][0] && s[|s| - 1] == tail[|tail| - 1];
    }
  }

  // ----- strconv: decimal numerals -----

  predicate IsDigit(c: char) {
    '0' <= c <= '9'
  }

  function Digit(d: nat): (c: char)
    requires d < 10
    ensures IsDigit(c)
  {
    '0' + d as char
  }

  function DigitValue(c: char): (d: nat)
    requires IsDigit(c)
    ensures d < 10
  {
    c as int - '0' as int
  }

  function Decimal(n: nat): (s: string)
    ensures s != ""
  {
    if n < 10 then [Digit(n)] else Decimal(n / 10) + [Digit(n % 10)]
  }

  function NumeralValue(s: string): nat
    requires AllIn(s, IsDigit)
  {
    if s == "" then 0 else 10 * NumeralValue(s[..|s| - 1]) + DigitValue(s[|s| - 1])
  }

  predicate HasLeadingZeroes(s: string) {
    |s| > 1 && s[0] == '0'
  }

  /** A numeral that semantic versions accept: digits, no leading zero. */
  predicate CanonicalNumeral(s: string) {
    s != "" && AllIn(s, IsDigit) && !HasLeadingZeroes(s)
  }

  lemma {:induction false} DecimalCanonical(n: nat)
    ensures CanonicalNumeral(Decimal(n)) && NumeralValue(Decimal(n)) == n
    ensures n > 0 ==> Decimal(n)[0] != '0'
  {
    if n >= 10 {
      DecimalCanonical(n / 10);
      var s := Decimal(n);
      AllInConcat(Decimal(n / 10), [Digit(n % 10)], IsDigit);
      assert s[..|s| - 1] == Decimal(n / 10);
    }
  }

  lemma {:induction false} DecimalInverse(s: string)
    requires CanonicalNumeral(s)
    ensures Decimal(NumeralValue(s)) == s
    ensures s[0] != '0' ==> NumeralValue(s) > 0
  {
    var n := |s| - 1;
    if n > 0 {
      DecimalInverse(s[..n]);
      assert s == s[..n] + [s[n]];
      assert NumeralValue(s) / 10 == NumeralValue(s[..n]);
    } else {
      assert s[..0] == "";
    }
  }

  // ----- lexicographic order -----

  /** Go's < on strings, read on code points. */
  predicate Less(a: string, b: string) {
    b != "" && (a == "" || a[0] < b[0] || (a[0] == b[0] && Less(a[1..], b[1..])))
  }

  /** The first character that differs decides, and a proper prefix comes first. */
  ghost predicate DecidedAt(a: string, b: string, n: nat) {
    n <= |a| && n < |b| && a[..n] == b[..n] && (n == |a| || a[n] < b[n])
  }

  lemma DecidedHead(a: string, b: string, n: nat)
    requires DecidedAt(a, b, n) && a != ""
    ensures a[0] <= b[0]
  {
    assert n > 0 ==> a[..n][0] == b[..n][0];
  }

  lemma {:induction false} LessMeans(a: string, b: string)
    ensures Less(a, b) <==> exists n: nat :: DecidedAt(a, b, n)
  {
    if b == "" {
    } else if a == "" || a[0] < b[0] {
      assert DecidedAt(a, b, 0);
    } else {
      forall n: nat | DecidedAt(a, b, n) ensures a[0] <= b[0] {
        DecidedHead(a, b, n);
      }
      if a[0] == b[0] {
        LessMeans(a[1..], b[1..]);
        DecidedTail(a, b);
      }
    }
  }

  /** Behind a common first character the rest decides. */
  lemma DecidedTail(a: string, b: string)
    requires a != "" && b != "" && a[0] == b[0]
    ensures (exists n: nat :: DecidedAt(a, b, n)) <==> exists n: nat :: DecidedAt(a[1..], b[1..], n)
  {
    if n: nat :| DecidedAt(a[1..], b[1..], n) {
      assert a[..n + 1] == [a[0]] + a[1..][..n] && b[..n + 1] == [b[0]] + b[1..][..n];
      assert DecidedAt(a, b, n + 1);
    }
    if n: nat :| DecidedAt(a, b, n) {
      assert a[1..][..n - 1] == a[..n][1..] && b[1..][..n - 1] == b[..n][1..];
      assert DecidedAt(a[1..], b[1..], n - 1);
    }
  }

  lemma {:induction false} LessIrreflexive(a: string)
    ensures !Less(a, a)
  {
    if a != "" {
      LessIrreflexive(a[1..]);
    }
  }

  lemma {:induction false} LessTransitive(a: string, b: string, c: string)
    requires Less(a, b) && Less(b, c)
    ensures Less(a, c)
  {
    if a != "" && a[0] == b[0] == c[0] {
      LessTransitive(a[1..], b[1..], c[1..]);
    }
  }

  lemma {:induction false} LessTotal(a: string, b: string)
    ensures a == b || Less(a, b) || Less(b, a)
  {
    if a != "" && b != "" && a[0] == b[0] {
      LessTotal(a[1..], b[1..]);
      if a[1..] == b[1..] {
        assert a == [a[0]] + a[1..] && b == [b[0]] + b[1..];
      }
    }
  }

  // ----- sort.Strings over the keys of a map or a set -----

  predicate StrictlySorted(s: seq<string>) {
    forall i, j :: 0 <= i < j < |s| ==> Less(s[i], s[j])
  }

  ghost predicate Enumerates(s: seq<string>, keys: set<string>) {
    StrictlySorted(s) && (forall k :: k in s <==> k in keys)
  }

  /** A set has only one strictly sorted enumeration. */
  lemma {:induction false} EnumerationUnique(s: seq<string>, t: seq<string>, keys: set<string>)
    requires Enumerates(s, keys) && Enumerates(t, keys)
    ensures s == t
  {
    assert forall i :: 0 <= i < |s| ==> s[i] in t;
    assert forall i :: 0 <= i < |t| ==> t[i] in s;
    if s != [] && t != [] {
      HeadLeast(s, keys);
      HeadLeast(t, keys);
      LessTotal(s[0], t[0]);
      TailEnumerates(s, keys);
      TailEnumerates(t, keys);
      EnumerationUnique(s[1..], t[1..], keys - {s[0]});
      assert s == [s[0]] + s[1..] && t == [t[0]] + t[1..];
    }
  }

  lemma HeadLeast(s: seq<string>, keys: set<string>)
    requires Enumerates(s, keys) && s != []
    ensures s[0] in keys && forall k :: k in keys ==> !Less(k, s[0])
  {
    assert s[0] in s;
    forall k | k in keys ensures !Less(k, s[0]) {
      assert k in s;
      var i :| 0 <= i < |s| && s[i] == k;
      LessIrreflexive(k);
      if i > 0 && Less(k, s[0]) {
        LessTransitive(s[0], k, s[0]);
        LessIrreflexive(s[0]);
      }
    }
  }

  lemma TailEnumerates(s: seq<string>, keys: set<string>)
    requires Enumerates(s, keys) && s != []
    ensures Enumerates(s[1..], keys - {s[0]})
  {
    LessIrreflexive(s[0]);
    forall k ensures k in s[1..] <==> k in keys - {s[0]} {
      assert k in s <==> k in keys;
      assert k in s <==> k == s[0] || k in s[1..];
      if k in s[1..] {
        var i :| 0 <= i < |s[1..]| && s[1..][i] == k;
        assert Less(s[0], s[i + 1]);
      }
    }
  }

  function Insert(k: string, s: seq<string>): seq<string> {
    if s == [] || Less(k, s[0]) then [k] + s else [s[0]] + Insert(k, s[1..])
  }

  lemma {:induction false} InsertEnumerates(k: string, s: seq<string>, keys: set<string>)
    requires Enumerates(s, keys) && k !in keys
    ensures Enumerates(Insert(k, s), keys + {k})
  {
    if s == [] {
    } else if Less(k, s[0]) {
      forall j | 0 <= j < |s| ensures Less(k, s[j]) {
        if j > 0 {
          LessTransitive(k, s[0], s[j]);
        }
      }
    } else {
      assert s[0] in s;
      LessTotal(k, s[0]);
      TailEnumerates(s, keys);
      InsertEnumerates(k, s[1..], keys - {s[0]});
      var t := Insert(k, s[1..]);
      assert keys - {s[0]} + {k} + {s[0]} == keys + {k};
      forall j | 0 <= j < |t| ensures Less(s[0], t[j]) {
        assert t[j] in t;
        if t[j] != k {
          assert t[j] in s[1..];
          var i :| 0 <= i < |s[1..]| && s[1..][i] == t[j];
          assert s[i + 1] == t[j];
        }
      }
      forall x ensures x in [s[0]] + t <==> x in keys + {k} {
        assert x in t <==> x in keys - {s[0]} + {k};
      }
    }
  }

  /** The sorted keys of a finite set. */
  ghost function Sorted(keys: set<string>): (s: seq<string>)
    ensures Enumerates(s, keys)
    decreases |keys|
  {
    if keys == {} then []
    else
      var k :| k in keys;
      var rest := Sorted(keys - {k});
      InsertEnumerates(k, rest, keys - {k});
      assert keys - {k} + {k} == keys;
      Insert(k, rest)
  }

  /** Collect the keys in whatever order the runtime hands them out and sort them:
      the outcome does not depend on that order. */
  method SortedKeys(keys: set<string>) returns (s: seq<string>)
    ensures s == Sorted(keys)
  {
    s := [];
    var rest := keys;
    while rest != {}
      invariant rest <= keys && Enumerates(s, keys - rest)
    {
      var k :| k in rest;
      InsertEnumerates(k, s, keys - rest);
      assert keys - rest + {k} == keys - (rest - {k});
      s := Insert(k, s);
      rest := rest - {k};
    }
    assert keys - rest == keys;
    EnumerationUnique(s, Sorted(keys), keys);
  }

  /** The lexicographically least element of a non-empty set. */
  ghost predicate IsLeast(m: string, keys: set<string>) {
    m in keys && forall k :: k in keys ==> m == k || Less(m, k)
  }

  lemma SortedLeast(keys: set<string>)
    requires keys != {}
    ensures |Sorted(keys)| > 0 && IsLeast(Sorted(keys)[0], keys)
  {
    var s := Sorted(keys);
    var w :| w in keys;
    assert w in s;
    HeadLeast(s, keys);
    forall k | k in keys ensures s[0] == k || Less(s[0], k) {
      LessTotal(s[0], k);
    }
  }
}
