/** Semantic versions as the vendored blang/semver library reads and prints
    them (items 2, 9 and 10 of Semantic Versioning 2.0.0, with every number
    limited to 64 unsigned bits). */
module Semver {
  import opened Base
  import opened Text

  datatype PRVersion = Numeric(num: nat) | Alpha(text: string)

  datatype Version = Version(major: nat, minor: nat, patch: nat, pre: seq<PRVersion>, build: seq<string>)

  const MAX_UINT64: nat := 0xFFFF_FFFF_FFFF_FFFF

  predicate IsIdentifierChar(c: char) {
    'a' <= c <= 'z' || 'A' <= c <= 'Z' || c == '-' || IsDigit(c)
  }

  const NUMBERS: string := "0123456789"
  const LOWER: string := "abcdefghijklmnopqrstuvwxyz"
  const UPPER: string := "ABCDEFGHIJKLMNOPQRSTUVWXYZ"

  lemma NumbersExactly(c: char)
    ensures c in NUMBERS <==> IsDigit(c)
  {
    if IsDigit(c) {
      assert NUMBERS[c as int - '0' as int] == c;
    }
  }

  lemma LowerExactly(c: char)
    ensures c in LOWER <==> 'a' <= c <= 'z'
  {
    if 'a' <= c <= 'z' {
      assert LOWER[c as int - 'a' as int] == c;
    }
  }

  lemma UpperExactly(c: char)
    ensures c in UPPER <==> 'A' <= c <= 'Z'
  {
    if 'A' <= c <= 'Z' {
      assert UPPER[c as int - 'A' as int] == c;
    }
  }

  /** The characters of an identifier, listed. */
  lemma IdentifierCharsExactly(c: char)
    ensures IsIdentifierChar(c) <==> c in LOWER + UPPER + "-" + NUMBERS
  {
    NumbersExactly(c);
    LowerExactly(c);
    UpperExactly(c);
    assert c in LOWER + UPPER + "-" + NUMBERS <==> c in LOWER || c in UPPER || c == '-' || c in NUMBERS;
  }

  predicate IsVersionChar(c: char) {
    IsIdentifierChar(c) || c == '.'
  }

  predicate IsIdentifier(s: string) {
    s != "" && AllIn(s, IsIdentifierChar)
  }

  // ----- the versions that can be written -----

  predicate ValidPR(p: PRVersion) {
    match p
    case Numeric(n) => n <= MAX_UINT64
    case Alpha(t) => IsIdentifier(t) && !AllIn(t, IsDigit)
  }

  predicate Valid(v: Version) {
    v.major <= MAX_UINT64 && v.minor <= MAX_UINT64 && v.patch <= MAX_UINT64 &&
    (forall i :: 0 <= i < |v.pre| ==> ValidPR(v.pre[i])) &&
    (forall i :: 0 <= i < |v.build| ==> IsIdentifier(v.build[i]))
  }

  // ----- printing (Version.String) -----

  function PRString(p: PRVersion): string {
    match p
    case Numeric(n) => Decimal(n)
    case Alpha(t) => t
  }

  function PRStrings(pre: seq<PRVersion>): (parts: seq<string>)
    ensures |parts| == |pre|
  {
    seq(|pre|, i requires 0 <= i < |pre| => PRString(pre[i]))
  }

  function PreText(pre: seq<PRVersion>): string {
    if pre == [] then "" else "-" + Join(PRStrings(pre), '.')
  }

  function BuildText(build: seq<string>): string {
    if build == [] then "" else "+" + Join(build, '.')
  }

  function Print(v: Version): string {
    Decimal(v.major) + "." + (Decimal(v.minor) + "." + (Decimal(v.patch) + PreText(v.pre) + BuildText(v.build)))
  }

  // ----- parsing (semver.Parse) -----

  function ParseNumber(s: string): Option<nat> {
    if !CanonicalNumeral(s) || NumeralValue(s) > MAX_UINT64 then None else Some(NumeralValue(s))
  }

  function ParsePR(s: string): Option<PRVersion> {
    if s == "" then None
    else if AllIn(s, IsDigit) then
      match ParseNumber(s)
      case None => None
      case Some(n) => Some(Numeric(n))
    else if AllIn(s, IsIdentifierChar) then Some(Alpha(s))
    else None
  }

  function ParsePRs(parts: seq<string>): Option<seq<PRVersion>> {
    if parts == [] then Some([])
    else
      match (ParsePR(parts[0]), ParsePRs(parts[1..]))
      case (Some(p), Some(rest)) => Some([p] + rest)
      case _ => None
  }

  /** The optional section after a marker character, split at dots. */
  function Section(s: string, marker: char): (string, seq<string>) {
    match Cut(s, marker)
    case None => (s, [])
    case Some((a, b)) => (a, Split(b, '.'))
  }

  function ParsePatch(s: string): Option<(nat, seq<PRVersion>, seq<string>)> {
    var (core, build) := Section(s, '+');
    var (number, pre) := Section(core, '-');
    match (ParseNumber(number), ParsePRs(pre))
    case (Some(n), Some(prs)) =>
      if forall i :: 0 <= i < |build| ==> IsIdentifier(build[i]) then Some((n, prs, build)) else None
    case _ => None
  }

  function Parse(s: string): Option<Version> {
    match Cut(s, '.')
    case None => None
    case Some((major, rest)) =>
      match Cut(rest, '.')
      case None => None
      case Some((minor, patch)) =>
        match (ParseNumber(major), ParseNumber(minor), ParsePatch(patch))
        case (Some(a), Some(b), Some((c, pre, build))) => Some(Version(a, b, c, pre, build))
        case _ => None
  }

  // ----- parsing and printing are inverse on valid versions -----

  lemma NumberInverse(s: string, n: nat)
    ensures ParseNumber(s) == Some(n) <==> n <= MAX_UINT64 && s == Decimal(n)
  {
    DecimalCanonical(n);
    if CanonicalNumeral(s) {
      DecimalInverse(s);
    }
  }

  lemma PRInverse(s: string, p: PRVersion)
    ensures ParsePR(s) == Some(p) <==> ValidPR(p) && s == PRString(p)
  {
    match p
    case Numeric(n) =>
      NumberInverse(s, n);
      DecimalCanonical(n);
    case Alpha(t) =>
  }

  lemma {:induction false} PRsInverse(parts: seq<string>, pre: seq<PRVersion>)
    ensures ParsePRs(parts) == Some(pre) <==>
            (forall i :: 0 <= i < |pre| ==> ValidPR(pre[i])) && parts == PRStrings(pre)
  {
    if parts == [] {
    } else if pre == [] {
      assert PRStrings(pre) == [];
    } else {
      PRInverse(parts[0], pre[0]);
      PRsInverse(parts[1..], pre[1..]);
      assert pre == [pre[0]] + pre[1..];
      assert PRStrings(pre) == [PRString(pre[0])] + PRStrings(pre[1..]);
      assert parts == [parts[0]] + parts[1..];
    }
  }

  lemma NotIn(s: string, p: char -> bool, c: char)
    requires AllIn(s, p) && !p(c)
    ensures c !in s
  {
  }

  lemma PRChars(p: PRVersion)
    requires ValidPR(p)
    ensures IsIdentifier(PRString(p))
  {
    if p.Numeric? {
      DecimalCanonical(p.num);
    }
  }

  lemma PRStringsChars(pre: seq<PRVersion>)
    requires forall i :: 0 <= i < |pre| ==> ValidPR(pre[i])
    ensures AllIn(PreText(pre), IsVersionChar)
    ensures Free(PRStrings(pre), '.')
  {
    forall i | 0 <= i < |pre| ensures IsIdentifier(PRStrings(pre)[i]) && '.' !in PRStrings(pre)[i] {
      PRChars(pre[i]);
    }
    JoinAllIn(PRStrings(pre), '.', IsVersionChar);
  }

  lemma SectionNone(s: string, marker: char)
    requires marker !in s
    ensures Section(s, marker) == (s, [])
  {
    CutNone(s, marker);
  }

  lemma SectionSome(a: string, parts: seq<string>, marker: char)
    requires marker !in a && parts != [] && Free(parts, '.')
    ensures Section(a + [marker] + Join(parts, '.'), marker) == (a, parts)
  {
    CutAt(a, Join(parts, '.'), marker);
    SplitJoin(parts, '.');
  }

  lemma CoreSection(number: string, pre: seq<PRVersion>)
    requires AllIn(number, IsDigit) && forall i :: 0 <= i < |pre| ==> ValidPR(pre[i])
    ensures Section(number + PreText(pre), '-') == (number, PRStrings(pre))
    ensures '+' !in number + PreText(pre)
  {
    PRStringsChars(pre);
    NotIn(PreText(pre), IsVersionChar, '+');
    if pre == [] {
      assert number + PreText(pre) == number;
      SectionNone(number, '-');
      assert PRStrings(pre) == [];
    } else {
      assert number + PreText(pre) == number + ['-'] + Join(PRStrings(pre), '.');
      SectionSome(number, PRStrings(pre), '-');
    }
  }

  lemma BuildSection(core: string, build: seq<string>)
    requires '+' !in core && forall i :: 0 <= i < |build| ==> IsIdentifier(build[i])
    ensures Section(core + BuildText(build), '+') == (core, build)
  {
    if build == [] {
      assert core + BuildText(build) == core;
      SectionNone(core, '+');
    } else {
      assert core + BuildText(build) == core + ['+'] + Join(build, '.');
      SectionSome(core, build, '+');
    }
  }

  lemma PatchRoundTrip(v: Version)
    requires Valid(v)
    ensures ParsePatch(Decimal(v.patch) + PreText(v.pre) + BuildText(v.build)) == Some((v.patch, v.pre, v.build))
  {
    DecimalCanonical(v.patch);
    CoreSection(Decimal(v.patch), v.pre);
    BuildSection(Decimal(v.patch) + PreText(v.pre), v.build);
    NumberInverse(Decimal(v.patch), v.patch);
    PRsInverse(PRStrings(v.pre), v.pre);
  }

  /** Every valid version is read back from its printed form. */
  lemma ParsePrint(v: Version)
    requires Valid(v)
    ensures Parse(Print(v)) == Some(v)
  {
    var patch := Decimal(v.patch) + PreText(v.pre) + BuildText(v.build);
    DecimalCanonical(v.major);
    DecimalCanonical(v.minor);
    CutAt(Decimal(v.major), Decimal(v.minor) + "." + patch, '.');
    CutAt(Decimal(v.minor), patch, '.');
    NumberInverse(Decimal(v.major), v.major);
    NumberInverse(Decimal(v.minor), v.minor);
    PatchRoundTrip(v);
  }

  lemma SectionInverse(s: string, marker: char)
    ensures var (a, parts) := Section(s, marker);
            s == a + (if parts == [] then "" else [marker] + Join(parts, '.'))
  {
    if Cut(s, marker).Some? {
      CutSome(s, marker);
      JoinSplit(Cut(s, marker).value.1, '.');
    }
  }

  lemma PatchPrint(s: string)
    requires ParsePatch(s).Some?
    ensures var (n, pre, build) := ParsePatch(s).value;
            s == Decimal(n) + PreText(pre) + BuildText(build) && n <= MAX_UINT64 &&
            (forall i :: 0 <= i < |pre| ==> ValidPR(pre[i])) &&
            (forall i :: 0 <= i < |build| ==> IsIdentifier(build[i]))
  {
    var (n, pre, build) := ParsePatch(s).value;
    var (core, _) := Section(s, '+');
    var (number, parts) := Section(core, '-');
    SectionInverse(s, '+');
    SectionInverse(core, '-');
    NumberInverse(number, n);
    PRsInverse(parts, pre);
  }

  /** Whatever is accepted is the printed form of the valid version returned. */
  lemma PrintParse(s: string)
    requires Parse(s).Some?
    ensures Valid(Parse(s).value) && Print(Parse(s).value) == s
  {
    var (major, rest) := Cut(s, '.').value;
    var (minor, patch) := Cut(rest, '.').value;
    CutSome(s, '.');
    CutSome(rest, '.');
    NumberInverse(major, ParseNumber(major).value);
    NumberInverse(minor, ParseNumber(minor).value);
    PatchPrint(patch);
  }

  /** The accepted strings are exactly the printed forms of valid versions. */
  lemma Accepts(s: string)
    ensures Parse(s).Some? <==> exists v :: Valid(v) && Print(v) == s
  {
    if Parse(s).Some? {
      PrintParse(s);
    }
    forall v | Valid(v) && Print(v) == s ensures Parse(s).Some? {
      ParsePrint(v);
    }
  }

  // ----- versions without build metadata -----

  function DropBuild(v: Version): Version {
    v.(build := [])
  }

  /** A version string the label parser can store. */
  predicate PlainVersion(s: string) {
    Parse(s).Some? && Parse(s).value.build == []
  }

  lemma DropBuildPlain(s: string)
    requires Parse(s).Some?
    ensures PlainVersion(Print(DropBuild(Parse(s).value)))
    ensures PlainVersion(s) ==> Print(DropBuild(Parse(s).value)) == s
  {
    PrintParse(s);
    ParsePrint(DropBuild(Parse(s).value));
  }

  /** Dropping build metadata gives the text up to its first plus sign: pre-release
      identifiers and numbers stay as they are written. */
  lemma DropBuildText(text: string)
    requires Parse(text).Some?
    ensures var plain := Print(DropBuild(Parse(text).value));
            plain <= text && '+' !in plain && (|text| > |plain| ==> text[|plain|] == '+')
  {
    var v := Parse(text).value;
    var plain := Print(DropBuild(v));
    PrintParse(text);
    DropBuildPlain(text);
    PlainVersionChars(plain);
    NotIn(plain, IsVersionChar, '+');
    var head := Decimal(v.major) + "." + (Decimal(v.minor) + "." + (Decimal(v.patch) + PreText(v.pre)));
    assert BuildText([]) == "";
    assert plain == head;
    assert text == head + BuildText(v.build);
  }

  lemma PlainVersionChars(s: string)
    requires PlainVersion(s)
    ensures s != "" && AllIn(s, IsVersionChar)
  {
    PrintParse(s);
    var v := Parse(s).value;
    DecimalCanonical(v.major);
    DecimalCanonical(v.minor);
    DecimalCanonical(v.patch);
    PRStringsChars(v.pre);
    var tail := Decimal(v.patch) + PreText(v.pre) + BuildText(v.build);
    assert tail == Decimal(v.patch) + PreText(v.pre);
    AllInConcat(Decimal(v.patch), PreText(v.pre), IsVersionChar);
    AllInConcat(Decimal(v.minor), ".", IsVersionChar);
    AllInConcat(Decimal(v.minor) + ".", tail, IsVersionChar);
    AllInConcat(Decimal(v.major), ".", IsVersionChar);
    AllInConcat(Decimal(v.major) + ".", Decimal(v.minor) + "." + tail, IsVersionChar);
    assert s == Decimal(v.major) + "." + (Decimal(v.minor) + "." + tail);
    assert Decimal(v.minor) + "." + tail == Decimal(v.minor) + ("." + tail);
  }
}
