/** The build-version and display-name labels of release images: the parser,
    the two printers, and exactly how far they are inverse to each other
    (pkg/releaseinfo/releaseinfo.go). */
module VersionLabels {
  import opened Base
  import opened Text
  import Semver

  datatype ComponentVersion = ComponentVersion(version: string, displayName: string)

  type ComponentVersions = map<string, ComponentVersion>

  datatype LabelError =
    | DisplayPairMalformed(pair: string)
    | NameTooShort(name: string)
    | NameInvalid(name: string)
    | DisplayNameInvalid(text: string)
    | VersionPairMalformed(pair: string)
    | VersionInvalid(pair: string)

  // ----- the two allowed-name patterns -----

  predicate IsKeyEnd(c: char) {
    'a' <= c <= 'z' || IsDigit(c)
  }

  predicate IsKeyChar(c: char) {
    IsKeyEnd(c) || c == '-'
  }

  /** One or more key ends, any key characters, one or more key ends: the
      pattern as it is written. */
  ghost predicate MatchesKeyPattern(s: string) {
    exists a, b, c ::
      s == a + b + c && a != "" && c != "" && AllIn(a, IsKeyEnd) && AllIn(b, IsKeyChar) && AllIn(c, IsKeyEnd)
  }

  predicate AllowedKey(s: string) {
    |s| >= 2 && AllIn(s, IsKeyChar) && s[0] != '-' && s[|s| - 1] != '-'
  }

  /** The direct test decides the pattern. */
  lemma KeyPatternDecided(s: string)
    ensures AllowedKey(s) <==> MatchesKeyPattern(s)
  {
    if AllowedKey(s) {
      var n := |s| - 1;
      assert s == s[..1] + s[1..n] + s[n..];
    }
    if MatchesKeyPattern(s) {
      var a, b, c :| s == a + b + c && a != "" && c != "" &&
        AllIn(a, IsKeyEnd) && AllIn(b, IsKeyChar) && AllIn(c, IsKeyEnd);
      assert AllIn(a, IsKeyChar) && AllIn(c, IsKeyChar);
      AllInConcat(a, b, IsKeyChar);
      AllInConcat(a + b, c, IsKeyChar);
      assert s[0] == a[0] && s[|s| - 1] == c[|c| - 1];
    }
  }

  predicate IsDisplayChar(c: char) {
    'a' <= c <= 'z' || 'A' <= c <= 'Z' || IsDigit(c) ||
    c in {'-', ':', '(', ')', '\t', '\n', 12 as char, '\r', ' '}
  }

  predicate AllowedDisplayName(s: string) {
    s != "" && AllIn(s, IsDisplayChar)
  }

  // ----- the parser, as functions of the remaining pairs -----

  function CheckKey(name: string): Option<LabelError> {
    if Utf8Length(name) < 2 then Some(NameTooShort(name))
    else if !AllowedKey(name) then Some(NameInvalid(name))
    else None
  }

  function NamePair(raw: string): Result<(string, string), LabelError> {
    var pair := TrimSpace(raw);
    match Cut(pair, '=')
    case None => Err(DisplayPairMalformed(pair))
    case Some((name, text)) =>
      match CheckKey(name)
      case Some(e) => Err(e)
      case None => if AllowedDisplayName(text) then Ok((name, text)) else Err(DisplayNameInvalid(text))
  }

  function VersionPair(raw: string, names: map<string, string>): Result<(string, ComponentVersion), LabelError> {
    var pair := TrimSpace(raw);
    match Cut(pair, '=')
    case None => Err(VersionPairMalformed(pair))
    case Some((name, text)) =>
      match CheckKey(name)
      case Some(e) => Err(e)
      case None =>
        match Semver.Parse(text)
        case None => Err(VersionInvalid(pair))
        case Some(v) =>
          Ok((name, ComponentVersion(Semver.Print(Semver.DropBuild(v)), NameOf(names, name))))
  }

  function NameOf(names: map<string, string>, key: string): string {
    if key in names then names[key] else ""
  }

  function ParseNames(pairs: seq<string>, names: map<string, string>): Result<map<string, string>, LabelError> {
    if pairs == [] then Ok(names)
    else
      match NamePair(pairs[0])
      case Err(e) => Err(e)
      case Ok((k, text)) => ParseNames(pairs[1..], names[k := text])
  }

  function ParseVersions(pairs: seq<string>, names: map<string, string>, labels: ComponentVersions)
    : Result<ComponentVersions, LabelError>
  {
    if pairs == [] then Ok(labels)
    else
      match VersionPair(pairs[0], names)
      case Err(e) => Err(e)
      case Ok((k, c)) => ParseVersions(pairs[1..], names, labels[k := c])
  }

  function DisplayNames(displayNames: string): Result<map<string, string>, LabelError> {
    if displayNames == "" then Ok(map[]) else ParseNames(Split(displayNames, ','), map[])
  }

  function Parse(versions: string, displayNames: string): Result<ComponentVersions, LabelError> {
    var versions := TrimSpace(versions);
    if versions == "" then Ok(map[])
    else
      match DisplayNames(displayNames)
      case Err(e) => Err(e)
      case Ok(names) => ParseVersions(Split(versions, ','), names, map[])
  }

  /** The display-name loop, returning at the first malformed pair. */
  method ParseNamePairs(pairs: seq<string>) returns (r: Result<map<string, string>, LabelError>)
    ensures r == ParseNames(pairs, map[])
  {
    var names: map<string, string> := map[];
    var i := 0;
    while i < |pairs|
      invariant 0 <= i <= |pairs|
      invariant ParseNames(pairs, map[]) == ParseNames(pairs[i..], names)
    {
      var pair := TrimSpace(pairs[i]);
      var parts := Cut(pair, '=');
      if parts.None? {
        return Err(DisplayPairMalformed(pair));
      }
      var (name, text) := parts.value;
      if Utf8Length(name) < 2 {
        return Err(NameTooShort(name));
      }
      if !AllowedKey(name) {
        return Err(NameInvalid(name));
      }
      if !AllowedDisplayName(text) {
        return Err(DisplayNameInvalid(text));
      }
      names := names[name := text];
      i := i + 1;
    }
    return Ok(names);
  }

  method ParseVersionPair(raw: string, names: map<string, string>)
    returns (r: Result<(string, ComponentVersion), LabelError>)
    ensures r == VersionPair(raw, names)
  {
    var pair := TrimSpace(raw);
    var parts := Cut(pair, '=');
    if parts.None? {
      return Err(VersionPairMalformed(pair));
    }
    var (name, text) := parts.value;
    if Utf8Length(name) < 2 {
      return Err(NameTooShort(name));
    }
    if !AllowedKey(name) {
      return Err(NameInvalid(name));
    }
    var v := Semver.Parse(text);
    if v.None? {
      return Err(VersionInvalid(pair));
    }
    var plain := Semver.DropBuild(v.value);
    return Ok((name, ComponentVersion(Semver.Print(plain), NameOf(names, name))));
  }

  /** The version loop, returning at the first malformed pair. */
  method ParseVersionPairs(pairs: seq<string>, names: map<string, string>)
    returns (r: Result<ComponentVersions, LabelError>)
    ensures r == ParseVersions(pairs, names, map[])
  {
    var labels: ComponentVersions := map[];
    var i := 0;
    while i < |pairs|
      invariant 0 <= i <= |pairs|
      invariant ParseVersions(pairs, names, map[]) == ParseVersions(pairs[i..], names, labels)
    {
      var parsed := ParseVersionPair(pairs[i], names);
      if parsed.Err? {
        return Err(parsed.error);
      }
      labels := labels[parsed.value.0 := parsed.value.1];
      i := i + 1;
    }
    return Ok(labels);
  }

  /** releaseinfo.go parseComponentVersionsLabel. */
  method ParseComponentVersionsLabel(versions: string, displayNames: string)
    returns (r: Result<ComponentVersions, LabelError>)
    ensures r == Parse(versions, displayNames)
  {
    var trimmed := TrimSpace(versions);
    if |trimmed| == 0 {
      return Ok(map[]);
    }
    var names: map<string, string> := map[];
    if |displayNames| > 0 {
      var parsed := ParseNamePairs(Split(displayNames, ','));
      if parsed.Err? {
        return Err(parsed.error);
      }
      names := parsed.value;
    }
    r := ParseVersionPairs(Split(trimmed, ','), names);
  }

  // ----- what is accepted, and what then is stored, said of the text -----

  /** The text of the last pair with a name, if there is one. */
  function LastText(pairs: seq<string>, k: string): Option<string> {
    if pairs == [] then None
    else if LastText(pairs[1..], k).Some? then LastText(pairs[1..], k)
    else
      match Cut(TrimSpace(pairs[0]), '=')
      case None => None
      case Some((name, text)) => if name == k then Some(text) else None
  }

  /** Pair i, without the white space around it, is the name, an equals sign and the text. */
  predicate PairAt(pairs: seq<string>, i: nat, k: string, text: string) {
    i < |pairs| && '=' !in k && TrimSpace(pairs[i]) == k + "=" + text
  }

  lemma PairCut(pairs: seq<string>, i: nat, k: string, text: string)
    requires i < |pairs|
    ensures PairAt(pairs, i, k, text) <==> Cut(TrimSpace(pairs[i]), '=') == Some((k, text))
  {
    var pair := TrimSpace(pairs[i]);
    if PairAt(pairs, i, k, text) {
      CutAt(k, text, '=');
    }
    if Cut(pair, '=').Some? {
      CutSome(pair, '=');
    }
  }

  /** The last pair with the name has the text. */
  ghost predicate LastPair(pairs: seq<string>, i: nat, k: string, text: string) {
    PairAt(pairs, i, k, text) && forall j: nat, other :: i < j < |pairs| ==> !PairAt(pairs, j, k, other)
  }

  lemma {:induction false} LastTextMeans(pairs: seq<string>, k: string)
    ensures match LastText(pairs, k)
            case Some(text) => exists i: nat :: LastPair(pairs, i, k, text)
            case None => forall i: nat, text :: !PairAt(pairs, i, k, text)
  {
    if pairs != [] {
      var rest := pairs[1..];
      LastTextMeans(rest, k);
      forall text ensures PairAt(pairs, 0, k, text) <==> Cut(TrimSpace(pairs[0]), '=') == Some((k, text)) {
        PairCut(pairs, 0, k, text);
      }
      assert forall j: nat, text :: 0 < j < |pairs| ==> (PairAt(pairs, j, k, text) <==> PairAt(rest, j - 1, k, text));
      if LastText(rest, k).Some? {
        var i: nat :| LastPair(rest, i, k, LastText(rest, k).value);
        assert LastPair(pairs, i + 1, k, LastText(pairs, k).value);
        assert exists i: nat :: LastPair(pairs, i, k, LastText(pairs, k).value);
      } else if LastText(pairs, k).Some? {
        var text := LastText(pairs, k).value;
        assert PairAt(pairs, 0, k, text);
        forall j: nat, other | 0 < j < |pairs| ensures !PairAt(pairs, j, k, other) {
          assert !PairAt(rest, j - 1, k, other);
        }
        assert LastPair(pairs, 0, k, text);
        assert exists i: nat :: LastPair(pairs, i, k, LastText(pairs, k).value);
      } else {
        assert forall text :: !PairAt(pairs, 0, k, text);
      }
    }
  }

  /** A pair with an allowed name and an allowed display name. */
  ghost predicate NamePairOk(pairs: seq<string>, i: nat) {
    exists k, text :: PairAt(pairs, i, k, text) && AllowedKey(k) && AllowedDisplayName(text)
  }

  /** A pair with an allowed name and a semantic version. */
  ghost predicate VersionPairOk(pairs: seq<string>, i: nat) {
    exists k, text :: PairAt(pairs, i, k, text) && AllowedKey(k) && Semver.Parse(text).Some?
  }

  lemma AllowedKeyChecked(name: string)
    ensures CheckKey(name).None? <==> AllowedKey(name)
  {
  }

  lemma NamePairDecided(pairs: seq<string>, i: nat)
    requires i < |pairs|
    ensures NamePair(pairs[i]).Ok? <==> NamePairOk(pairs, i)
    ensures NamePair(pairs[i]).Ok? ==> PairAt(pairs, i, NamePair(pairs[i]).value.0, NamePair(pairs[i]).value.1)
  {
    if NamePair(pairs[i]).Ok? {
      PairCut(pairs, i, NamePair(pairs[i]).value.0, NamePair(pairs[i]).value.1);
    }
    if NamePairOk(pairs, i) {
      var k, text :| PairAt(pairs, i, k, text) && AllowedKey(k) && AllowedDisplayName(text);
      PairCut(pairs, i, k, text);
    }
  }

  lemma VersionPairDecided(pairs: seq<string>, i: nat, names: map<string, string>)
    requires i < |pairs|
    ensures VersionPair(pairs[i], names).Ok? <==> VersionPairOk(pairs, i)
    ensures VersionPair(pairs[i], names).Ok? ==>
              var (k, c) := VersionPair(pairs[i], names).value;
              exists text :: PairAt(pairs, i, k, text) && Stores(text, c.version) && c.displayName == NameOf(names, k)
  {
    if VersionPair(pairs[i], names).Ok? {
      var (k, text) := Cut(TrimSpace(pairs[i]), '=').value;
      PairCut(pairs, i, k, text);
      Semver.DropBuildText(text);
    }
    if VersionPairOk(pairs, i) {
      var k, text :| PairAt(pairs, i, k, text) && AllowedKey(k) && Semver.Parse(text).Some?;
      PairCut(pairs, i, k, text);
    }
  }

  /** The stored version is the accepted text up to its first plus sign. */
  predicate Stores(text: string, stored: string) {
    Semver.Parse(text).Some? && stored <= text && '+' !in stored && (|text| > |stored| ==> text[|stored|] == '+')
  }

  ghost predicate AllNamePairsOk(pairs: seq<string>) {
    forall i: nat :: i < |pairs| ==> NamePairOk(pairs, i)
  }

  ghost predicate AllVersionPairsOk(pairs: seq<string>) {
    forall i: nat :: i < |pairs| ==> VersionPairOk(pairs, i)
  }

  lemma ShiftPairs(pairs: seq<string>)
    requires pairs != []
    ensures forall i: nat, k, text :: i + 1 < |pairs| ==> (PairAt(pairs[1..], i, k, text) <==>
            PairAt(pairs, i + 1, k, text))
  {
  }

  /** Either loop accepts when the first pair and all the others are in order. */
  lemma FirstAndRest(pairs: seq<string>)
    requires pairs != []
    ensures AllNamePairsOk(pairs) <==> NamePairOk(pairs, 0) && AllNamePairsOk(pairs[1..])
    ensures AllVersionPairsOk(pairs) <==> VersionPairOk(pairs, 0) && AllVersionPairsOk(pairs[1..])
  {
    ShiftPairs(pairs);
    forall i: nat | i + 1 < |pairs|
      ensures NamePairOk(pairs[1..], i) <==> NamePairOk(pairs, i + 1)
      ensures VersionPairOk(pairs[1..], i) <==> VersionPairOk(pairs, i + 1)
    {
    }
    forall i: nat | i < |pairs|
      ensures NamePairOk(pairs, i) <==> if i == 0 then NamePairOk(pairs, 0) else NamePairOk(pairs[1..], i - 1)
      ensures VersionPairOk(pairs, i) <==> if i == 0 then VersionPairOk(pairs, 0) else VersionPairOk(pairs[1..], i - 1)
    {
      if i > 0 {
        assert NamePairOk(pairs[1..], i - 1) <==> NamePairOk(pairs, i - 1 + 1);
        assert VersionPairOk(pairs[1..], i - 1) <==> VersionPairOk(pairs, i - 1 + 1);
      }
    }
    AllFromFirst(pairs);
  }

  lemma AllFromFirst(pairs: seq<string>)
    requires pairs != []
    requires forall i: nat :: i < |pairs| ==>
               (NamePairOk(pairs, i) <==> if i == 0 then NamePairOk(pairs, 0) else NamePairOk(pairs[1..], i - 1))
    requires forall i: nat :: i < |pairs| ==>
               (VersionPairOk(pairs, i) <==> if i == 0 then VersionPairOk(pairs, 0)
                else VersionPairOk(pairs[1..], i - 1))
    ensures AllNamePairsOk(pairs) <==> NamePairOk(pairs, 0) && AllNamePairsOk(pairs[1..])
    ensures AllVersionPairsOk(pairs) <==> VersionPairOk(pairs, 0) && AllVersionPairsOk(pairs[1..])
  {
    if AllNamePairsOk(pairs) {
      forall i: nat | i < |pairs[1..]| ensures NamePairOk(pairs[1..], i) {
        assert NamePairOk(pairs, i + 1);
      }
    }
    if AllVersionPairsOk(pairs) {
      forall i: nat | i < |pairs[1..]| ensures VersionPairOk(pairs[1..], i) {
        assert VersionPairOk(pairs, i + 1);
      }
    }
  }

  lemma {:induction false} NamesDecided(pairs: seq<string>, names: map<string, string>)
    ensures ParseNames(pairs, names).Ok? <==> AllNamePairsOk(pairs)
    ensures ParseNames(pairs, names).Ok? ==>
              forall k :: NameOf(ParseNames(pairs, names).value, k) ==
                          if LastText(pairs, k).Some? then LastText(pairs, k).value else NameOf(names, k)
  {
    if pairs != [] {
      FirstAndRest(pairs);
      NamePairDecided(pairs, 0);
      if NamePair(pairs[0]).Ok? {
        var (k, text) := NamePair(pairs[0]).value;
        NamesDecided(pairs[1..], names[k := text]);
        PairCut(pairs, 0, k, text);
      }
    }
  }

  /** The entries that the version loop adds to those it starts with. */
  ghost predicate Adds(pairs: seq<string>, names: map<string, string>, labels: ComponentVersions,
                       v: ComponentVersions) {
    forall k ::
      match LastText(pairs, k)
      case Some(text) => k in v && Stores(text, v[k].version) && v[k].displayName == NameOf(names, k)
      case None => (k in v <==> k in labels) && (k in v ==> v[k] == labels[k])
  }

  lemma {:induction false} VersionsDecided(pairs: seq<string>, names: map<string, string>, labels: ComponentVersions)
    ensures ParseVersions(pairs, names, labels).Ok? <==> AllVersionPairsOk(pairs)
    ensures ParseVersions(pairs, names, labels).Ok? ==> Adds(pairs, names, labels, ParseVersions(pairs, names,
            labels).value)
  {
    if pairs != [] {
      FirstAndRest(pairs);
      VersionPairDecided(pairs, 0, names);
      if VersionPair(pairs[0], names).Ok? {
        var (k, c) := VersionPair(pairs[0], names).value;
        var text :| PairAt(pairs, 0, k, text) && Stores(text, c.version) && c.displayName == NameOf(names, k);
        VersionsDecided(pairs[1..], names, labels[k := c]);
        PairCut(pairs, 0, k, text);
        if ParseVersions(pairs, names, labels).Ok? {
          AddsOneMore(pairs, names, labels, k, c, text, ParseVersions(pairs, names, labels).value);
        }
      }
    }
  }

  lemma AddsOneMore(pairs: seq<string>, names: map<string, string>, labels: ComponentVersions, k: string,
                    c: ComponentVersion, text: string, v: ComponentVersions)
    requires pairs != [] && Cut(TrimSpace(pairs[0]), '=') == Some((k, text))
    requires Stores(text, c.version) && c.displayName == NameOf(names, k)
    requires Adds(pairs[1..], names, labels[k := c], v)
    ensures Adds(pairs, names, labels, v)
  {
  }

  /** The display names that count: none for an empty label. */
  ghost function NamePairs(displayNames: string): seq<string> {
    if displayNames == "" then [] else Split(displayNames, ',')
  }

  /** A label is accepted if and only if it is blank, or every display-name pair has an
      allowed name and display name and every version pair an allowed name and a semantic
      version. */
  lemma AcceptedExactly(versions: string, displayNames: string)
    ensures Parse(versions, displayNames).Ok? <==>
            TrimSpace(versions) == "" ||
            (AllNamePairsOk(NamePairs(displayNames)) && AllVersionPairsOk(Split(TrimSpace(versions), ',')))
    ensures TrimSpace(versions) == "" ==> Parse(versions, displayNames) == Ok(map[])
  {
    NamesDecided(NamePairs(displayNames), map[]);
    if DisplayNames(displayNames).Ok? {
      VersionsDecided(Split(TrimSpace(versions), ','), DisplayNames(displayNames).value, map[]);
    }
  }

  /** What an accepted label says of a name: the last pair with that name counts, its
      version up to the first plus sign, under the last display name given for it. */
  ghost predicate Entry(versions: string, displayNames: string, k: string, c: Option<ComponentVersion>) {
    var pairs := Split(TrimSpace(versions), ',');
    match c
    case None => forall i: nat, text :: !PairAt(pairs, i, k, text)
    case Some(c) =>
      (exists i: nat, text :: LastPair(pairs, i, k, text) && Stores(text, c.version)) &&
      if c.displayName == "" then forall i: nat, text :: !PairAt(NamePairs(displayNames), i, k, text)
      else exists i: nat :: LastPair(NamePairs(displayNames), i, k, c.displayName)
  }

  lemma EntriesExactly(versions: string, displayNames: string, k: string)
    requires TrimSpace(versions) != "" && Parse(versions, displayNames).Ok?
    ensures var v := Parse(versions, displayNames).value;
            Entry(versions, displayNames, k, if k in v then Some(v[k]) else None)
  {
    var pairs, names := Split(TrimSpace(versions), ','), DisplayNames(displayNames).value;
    var v := Parse(versions, displayNames).value;
    NamesDecided(NamePairs(displayNames), map[]);
    VersionsDecided(pairs, names, map[]);
    LastTextMeans(pairs, k);
    LastTextMeans(NamePairs(displayNames), k);
    if k in v {
      var text := LastText(pairs, k).value;
      var i: nat :| LastPair(pairs, i, k, text);
      assert LastPair(pairs, i, k, text) && Stores(text, v[k].version);
      NameGiven(NamePairs(displayNames), k);
    }
  }

  /** A display name that was given is not empty. */
  lemma NameGiven(pairs: seq<string>, k: string)
    requires AllNamePairsOk(pairs)
    ensures LastText(pairs, k).Some? ==> LastText(pairs, k).value != ""
  {
    LastTextMeans(pairs, k);
    if LastText(pairs, k).Some? {
      var text := LastText(pairs, k).value;
      var i: nat :| LastPair(pairs, i, k, text);
      assert NamePairOk(pairs, i);
      var k', text' :| PairAt(pairs, i, k', text') && AllowedKey(k') && AllowedDisplayName(text');
      PairCut(pairs, i, k, text);
      PairCut(pairs, i, k', text');
    }
  }

  // ----- the printers -----

  function VersionSegment(k: string, c: ComponentVersion): string {
    k + "=" + c.version
  }

  function NameSegment(k: string, c: ComponentVersion): string {
    if c.displayName == "" then "" else k + "=" + c.displayName
  }

  function Segments(ks: seq<string>, v: ComponentVersions, segment: (string, ComponentVersion) -> string)
    : (parts: seq<string>)
    requires forall k :: k in ks ==> k in v
    ensures |parts| == |ks|
    ensures forall i :: 0 <= i < |ks| ==> parts[i] == segment(ks[i], v[ks[i]])
  {
    if ks == [] then [] else [segment(ks[0], v[ks[0]])] + Segments(ks[1..], v, segment)
  }

  ghost function VersionLabel(v: ComponentVersions): string {
    Join(Segments(Sorted(v.Keys), v, VersionSegment), ',')
  }

  ghost function DisplayNameLabel(v: ComponentVersions): string {
    Join(Segments(Sorted(v.Keys), v, NameSegment), ',')
  }

  lemma SegmentsTake(ks: seq<string>, v: ComponentVersions, segment: (string, ComponentVersion) -> string, i: nat)
    requires (forall k :: k in ks ==> k in v) && i < |ks|
    ensures Segments(ks[..i + 1], v, segment) == Segments(ks[..i], v, segment) + [segment(ks[i], v[ks[i]])]
  {
    assert ks[..i + 1] == ks[..i] + [ks[i]];
  }

  method OrderedKeys(v: ComponentVersions) returns (keys: seq<string>)
    ensures keys == Sorted(v.Keys)
  {
    keys := SortedKeys(v.Keys);
  }

  /** releaseinfo.go VersionLabel. */
  method PrintVersionLabel(v: ComponentVersions) returns (buf: string)
    ensures buf == VersionLabel(v)
  {
    var keys := SortedKeys(v.Keys);
    buf := "";
    var i := 0;
    while i < |keys|
      invariant 0 <= i <= |keys|
      invariant buf == Join(Segments(keys[..i], v, VersionSegment), ',')
    {
      SegmentsTake(keys, v, VersionSegment, i);
      JoinAppend(Segments(keys[..i], v, VersionSegment), VersionSegment(keys[i], v[keys[i]]), ',');
      assert keys[i] in keys;
      if i != 0 {
        buf := buf + ",";
      }
      buf := buf + (keys[i] + "=" + v[keys[i]].version);
      i := i + 1;
    }
    assert keys[..i] == keys;
  }

  /** releaseinfo.go DisplayNameLabel: the separator is written before the
      empty-name check. */
  method PrintDisplayNameLabel(v: ComponentVersions) returns (buf: string)
    ensures buf == DisplayNameLabel(v)
  {
    var keys := SortedKeys(v.Keys);
    buf := "";
    var i := 0;
    while i < |keys|
      invariant 0 <= i <= |keys|
      invariant buf == Join(Segments(keys[..i], v, NameSegment), ',')
    {
      SegmentsTake(keys, v, NameSegment, i);
      JoinAppend(Segments(keys[..i], v, NameSegment), NameSegment(keys[i], v[keys[i]]), ',');
      assert keys[i] in keys;
      if i != 0 {
        buf := buf + ",";
      }
      if |v[keys[i]].displayName| == 0 {
        i := i + 1;
        continue;
      }
      buf := buf + (keys[i] + "=" + v[keys[i]].displayName);
      i := i + 1;
    }
    assert keys[..i] == keys;
  }

  // ----- what the parser can return -----

  predicate StorableName(s: string) {
    s == "" || (AllowedDisplayName(s) && !IsSpace(s[|s| - 1]))
  }

  predicate StorableEntry(k: string, c: ComponentVersion) {
    AllowedKey(k) && Semver.PlainVersion(c.version) && StorableName(c.displayName)
  }

  ghost predicate Storable(v: ComponentVersions) {
    forall k :: k in v ==> StorableEntry(k, v[k])
  }

  ghost predicate StorableNames(names: map<string, string>) {
    forall k :: k in names ==> StorableName(names[k])
  }

  lemma NamePairStorable(raw: string)
    requires NamePair(raw).Ok?
    ensures StorableName(NamePair(raw).value.1)
  {
    var pair := TrimSpace(raw);
    TrimSpaceTrims(raw);
    CutSome(pair, '=');
    var (name, text) := Cut(pair, '=').value;
    assert pair[|pair| - 1] == text[|text| - 1];
  }

  lemma {:induction false} ParseNamesStorable(pairs: seq<string>, names: map<string, string>)
    requires StorableNames(names) && ParseNames(pairs, names).Ok?
    ensures StorableNames(ParseNames(pairs, names).value)
  {
    if pairs != [] {
      NamePairStorable(pairs[0]);
      var (k, text) := NamePair(pairs[0]).value;
      ParseNamesStorable(pairs[1..], names[k := text]);
    }
  }

  lemma {:induction false} ParseVersionsStorable(pairs: seq<string>, names: map<string, string>,
                                                 labels: ComponentVersions)
    requires StorableNames(names) && Storable(labels) && ParseVersions(pairs, names, labels).Ok?
    ensures Storable(ParseVersions(pairs, names, labels).value)
  {
    if pairs != [] {
      var (k, c) := VersionPair(pairs[0], names).value;
      Semver.DropBuildPlain(Cut(TrimSpace(pairs[0]), '=').value.1);
      assert StorableEntry(k, c);
      ParseVersionsStorable(pairs[1..], names, labels[k := c]);
    }
  }

  lemma ParseStorable(versions: string, displayNames: string)
    requires Parse(versions, displayNames).Ok?
    ensures Storable(Parse(versions, displayNames).value)
  {
    if TrimSpace(versions) != "" {
      if displayNames != "" {
        ParseNamesStorable(Split(displayNames, ','), map[]);
      }
      ParseVersionsStorable(Split(TrimSpace(versions), ','), DisplayNames(displayNames).value, map[]);
    }
  }

  // ----- reading printed segments back -----

  lemma KeyFacts(k: string)
    requires AllowedKey(k)
    ensures '=' !in k && ',' !in k && '+' !in k && !IsSpace(k[0])
  {
  }

  /** A key, an equals sign and text that does not end in a space is a trimmed
      pair that cuts at that equals sign. */
  lemma PairFacts(k: string, text: string)
    requires AllowedKey(k) && text != "" && !IsSpace(text[|text| - 1])
    ensures var s := k + "=" + text; s != "" && Trimmed(s) && TrimSpace(s) == s && Cut(s, '=') == Some((k, text))
  {
    var s := k + "=" + text;
    KeyFacts(k);
    assert s[0] == k[0] && s[|s| - 1] == text[|text| - 1];
    TrimSpaceTrims(s);
    CutAt(k, text, '=');
  }

  lemma PlainVersionFacts(text: string)
    requires Semver.PlainVersion(text)
    ensures text != "" && !IsSpace(text[|text| - 1]) && ',' !in text && '+' !in text
  {
    Semver.PlainVersionChars(text);
  }

  lemma VersionSegmentText(k: string, c: ComponentVersion)
    requires StorableEntry(k, c)
    ensures var s := VersionSegment(k, c); s != "" && Trimmed(s) && ',' !in s && AllIn(s, NotPlus)
  {
    KeyFacts(k);
    PlainVersionFacts(c.version);
    PairFacts(k, c.version);
    NotInSegment(k, c.version, ',');
    NotInSegment(k, c.version, '+');
  }

  lemma NotInSegment(k: string, text: string, x: char)
    requires x !in k && x !in text && x != '='
    ensures x !in k + "=" + text
  {
  }

  lemma VersionSegmentRead(k: string, c: ComponentVersion, names: map<string, string>)
    requires StorableEntry(k, c) && NameOf(names, k) == c.displayName
    ensures VersionPair(VersionSegment(k, c), names) == Ok((k, c))
  {
    PlainVersionFacts(c.version);
    PairFacts(k, c.version);
    Semver.DropBuildPlain(c.version);
  }

  lemma NameSegmentRead(k: string, c: ComponentVersion)
    requires StorableEntry(k, c)
    ensures ',' !in NameSegment(k, c)
    ensures c.displayName != "" ==> NamePair(NameSegment(k, c)) == Ok((k, c.displayName))
    ensures c.displayName == "" ==> NamePair(NameSegment(k, c)).Err?
  {
    if c.displayName != "" {
      KeyFacts(k);
      PairFacts(k, c.displayName);
      NotInSegment(k, c.displayName, ',');
    }
  }

  function Names(v: ComponentVersions): map<string, string> {
    map k | k in v :: v[k].displayName
  }

  ghost function Pick<T>(m: map<string, T>, ks: seq<string>): map<string, T> {
    map k | k in ks && k in m :: m[k]
  }

  lemma PickFirst<T>(m: map<string, T>, ks: seq<string>, acc: map<string, T>)
    requires ks != [] && ks[0] in m
    ensures acc + Pick(m, ks) == acc[ks[0] := m[ks[0]]] + Pick(m, ks[1..])
  {
  }

  lemma PickAll<T>(m: map<string, T>, ks: seq<string>)
    requires forall k :: k in ks <==> k in m
    ensures map[] + Pick(m, ks) == m
  {
  }

  lemma {:induction false} VersionsRead(ks: seq<string>, v: ComponentVersions, names: map<string, string>,
                                        acc: ComponentVersions)
    requires forall k :: k in ks ==> k in v && StorableEntry(k, v[k]) && NameOf(names, k) == v[k].displayName
    ensures ParseVersions(Segments(ks, v, VersionSegment), names, acc) == Ok(acc + Pick(v, ks))
  {
    if ks == [] {
      assert acc + Pick(v, ks) == acc;
    } else {
      var k := ks[0];
      VersionSegmentRead(k, v[k], names);
      VersionsRead(ks[1..], v, names, acc[k := v[k]]);
      PickFirst(v, ks, acc);
    }
  }

  lemma {:induction false} NamesRead(ks: seq<string>, v: ComponentVersions, acc: map<string, string>)
    requires forall k :: k in ks ==> k in v && StorableEntry(k, v[k]) && v[k].displayName != ""
    ensures ParseNames(Segments(ks, v, NameSegment), acc) == Ok(acc + Pick(Names(v), ks))
  {
    if ks == [] {
      assert acc + Pick(Names(v), ks) == acc;
    } else {
      var k := ks[0];
      NameSegmentRead(k, v[k]);
      NamesRead(ks[1..], v, acc[k := v[k].displayName]);
      PickFirst(Names(v), ks, acc);
    }
  }

  lemma {:induction false} ParseNamesFails(pairs: seq<string>, names: map<string, string>, i: nat)
    requires i < |pairs| && NamePair(pairs[i]).Err?
    ensures ParseNames(pairs, names).Err?
  {
    if i > 0 && NamePair(pairs[0]).Ok? {
      var (k, text) := NamePair(pairs[0]).value;
      ParseNamesFails(pairs[1..], names[k := text], i - 1);
    }
  }

  /** A printed version label splits back into its segments and is trimmed. */
  lemma VersionLabelSplits(v: ComponentVersions)
    requires Storable(v) && v != map[]
    ensures var parts := Segments(Sorted(v.Keys), v, VersionSegment);
            Split(VersionLabel(v), ',') == parts && VersionLabel(v) != "" &&
            TrimSpace(VersionLabel(v)) == VersionLabel(v)
    ensures '+' !in VersionLabel(v)
  {
    var ks := Sorted(v.Keys);
    var parts := Segments(ks, v, VersionSegment);
    SortedLeast(v.Keys);
    forall i | 0 <= i < |parts|
      ensures parts[i] != "" && Trimmed(parts[i]) && ',' !in parts[i] && AllIn(parts[i], NotPlus)
    {
      assert ks[i] in ks;
      VersionSegmentText(ks[i], v[ks[i]]);
    }
    SplitJoin(parts, ',');
    JoinTrimmed(parts, ',');
    TrimSpaceTrims(VersionLabel(v));
    JoinAllIn(parts, ',', NotPlus);
  }

  predicate NotPlus(c: char) {
    c != '+'
  }

  /** Reading a printed version label under given display names restores the map. */
  lemma VersionLabelRead(v: ComponentVersions, displayNames: string)
    requires Storable(v) && v != map[] && DisplayNames(displayNames).Ok?
    requires forall k :: k in v ==> NameOf(DisplayNames(displayNames).value, k) == v[k].displayName
    ensures Parse(VersionLabel(v), displayNames) == Ok(v)
  {
    var ks := Sorted(v.Keys);
    VersionLabelSplits(v);
    VersionsRead(ks, v, DisplayNames(displayNames).value, map[]);
    PickAll(v, ks);
  }

  lemma EmptyMapLabels(v: ComponentVersions)
    requires v == map[]
    ensures VersionLabel(v) == DisplayNameLabel(v) == "" && Parse("", "") == Ok(v)
  {
    SortedLength(v);
  }

  lemma SortedLength(v: ComponentVersions)
    ensures |Sorted(v.Keys)| == |v|
  {
    var s := Sorted(v.Keys);
    forall i, j | 0 <= i < j < |s| ensures s[i] != s[j] {
      LessIrreflexive(s[i]);
    }
    DistinctLength(s, v.Keys);
    assert |v.Keys| == |v|;
  }

  lemma {:induction false} DistinctLength(s: seq<string>, keys: set<string>)
    requires (forall i, j :: 0 <= i < j < |s| ==> s[i] != s[j]) && forall k :: k in s <==> k in keys
    ensures |s| == |keys|
  {
    if s == [] {
      assert keys == {};
    } else {
      assert s[0] in s;
      forall k ensures k in s[1..] <==> k in keys - {s[0]} {
        assert k in s <==> k == s[0] || k in s[1..];
      }
      DistinctLength(s[1..], keys - {s[0]});
    }
  }

  lemma NameSegmentsFree(v: ComponentVersions)
    requires Storable(v)
    ensures Free(Segments(Sorted(v.Keys), v, NameSegment), ',')
  {
    var ks := Sorted(v.Keys);
    forall i | 0 <= i < |ks| ensures ',' !in NameSegment(ks[i], v[ks[i]]) {
      assert ks[i] in ks;
      NameSegmentRead(ks[i], v[ks[i]]);
    }
  }

  /** All display names are present: the display-name label reads back. */
  lemma DisplayNameLabelRead(v: ComponentVersions)
    requires Storable(v) && v != map[] && forall k :: k in v ==> v[k].displayName != ""
    ensures DisplayNames(DisplayNameLabel(v)) == Ok(Names(v))
  {
    var ks := Sorted(v.Keys);
    var parts := Segments(ks, v, NameSegment);
    SortedLeast(v.Keys);
    NameSegmentsFree(v);
    SplitJoin(parts, ',');
    assert ks[0] in ks;
    assert parts[0] != "";
    NamesRead(ks, v, map[]);
    PickAll(Names(v), ks);
  }

  /** Two or more components and a missing name: the label has an empty pair, which is refused. */
  lemma DisplayNameLabelRefused(v: ComponentVersions, missing: string)
    requires Storable(v) && |v| > 1 && missing in v && v[missing].displayName == ""
    ensures DisplayNames(DisplayNameLabel(v)).Err?
  {
    SortedLength(v);
    DisplayNameLabelSplits(v);
    MissingSegment(Sorted(v.Keys), v, missing);
  }

  lemma DisplayNameLabelSplits(v: ComponentVersions)
    requires Storable(v) && |Sorted(v.Keys)| > 1
    ensures Split(DisplayNameLabel(v), ',') == Segments(Sorted(v.Keys), v, NameSegment) && DisplayNameLabel(v) != ""
  {
    NameSegmentsFree(v);
    SplitJoin(Segments(Sorted(v.Keys), v, NameSegment), ',');
  }

  lemma MissingSegment(ks: seq<string>, v: ComponentVersions, missing: string)
    requires (forall k :: k in ks ==> k in v) && missing in ks && StorableEntry(missing, v[missing])
    requires v[missing].displayName == ""
    ensures ParseNames(Segments(ks, v, NameSegment), map[]).Err?
  {
    var i :| 0 <= i < |ks| && ks[i] == missing;
    NameSegmentRead(missing, v[missing]);
    ParseNamesFails(Segments(ks, v, NameSegment), map[], i);
  }

  ghost predicate AllNamed(v: ComponentVersions) {
    forall k :: k in v ==> v[k].displayName != ""
  }

  ghost function Reparse(v: ComponentVersions): Result<ComponentVersions, LabelError> {
    Parse(VersionLabel(v), DisplayNameLabel(v))
  }

  lemma ReparseNamed(v: ComponentVersions)
    requires Storable(v) && AllNamed(v)
    ensures Reparse(v) == Ok(v)
  {
    if v == map[] {
      EmptyMapLabels(v);
    } else {
      DisplayNameLabelRead(v);
      VersionLabelRead(v, DisplayNameLabel(v));
    }
  }

  lemma ReparseSingle(v: ComponentVersions, missing: string)
    requires Storable(v) && |v| <= 1 && missing in v && v[missing].displayName == ""
    ensures Reparse(v) == Ok(v)
  {
    SingleUnnamed(v, missing);
    VersionLabelRead(v, "");
  }

  lemma ReparseRefused(v: ComponentVersions, missing: string)
    requires Storable(v) && |v| > 1 && missing in v && v[missing].displayName == ""
    ensures Reparse(v).Err?
  {
    VersionLabelSplits(v);
    DisplayNameLabelRefused(v, missing);
  }

  /** The round trip through both labels: it works exactly when there is at most
      one component or every component has a display name, and then restores v. */
  lemma LabelRoundTrip(v: ComponentVersions)
    requires Storable(v)
    ensures Parse(VersionLabel(v), DisplayNameLabel(v)).Ok? <==> |v| <= 1 || AllNamed(v)
    ensures |v| <= 1 || AllNamed(v) ==> Parse(VersionLabel(v), DisplayNameLabel(v)) == Ok(v)
  {
    assert Reparse(v) == Parse(VersionLabel(v), DisplayNameLabel(v));
    if AllNamed(v) {
      ReparseNamed(v);
    } else {
      var missing :| missing in v && v[missing].displayName == "";
      if |v| > 1 {
        ReparseRefused(v, missing);
      } else {
        ReparseSingle(v, missing);
      }
    }
  }

  lemma OneDotZero()
    ensures Semver.PlainVersion("1.0.0")
  {
    var v := Semver.Version(1, 0, 0, [], []);
    assert Decimal(1) == "1" && Decimal(0) == "0";
    assert Semver.Print(v) == "1.0.0";
    Semver.ParsePrint(v);
  }

  /** Two components, one without a display name: the parser returns this map, and
      refuses the labels printed for it. */
  lemma UnnamedComponentRefused()
    ensures var v := map["aa" := ComponentVersion("1.0.0", ""), "bb" := ComponentVersion("1.0.0", "B")];
            Storable(v) && Parse(VersionLabel(v), DisplayNameLabel(v)).Err?
  {
    var v := map["aa" := ComponentVersion("1.0.0", ""), "bb" := ComponentVersion("1.0.0", "B")];
    OneDotZero();
    assert StorableEntry("aa", v["aa"]) && StorableEntry("bb", v["bb"]);
    assert v.Keys == {"aa", "bb"} && |v| == |v.Keys| == 2;
    LabelRoundTrip(v);
  }

  lemma SingleUnnamed(v: ComponentVersions, key: string)
    requires |v| <= 1 && key in v && v[key].displayName == ""
    ensures v.Keys == {key} && DisplayNameLabel(v) == ""
  {
    var ks := Sorted(v.Keys);
    SortedLength(v);
    assert key in ks;
    assert v.Keys == {key} by {
      forall k | k in v.Keys ensures k == key {
        assert k in ks;
      }
    }
  }

  /** The names of the components that have one. */
  ghost function Named(v: ComponentVersions): ComponentVersions {
    map k | k in v && v[k].displayName != "" :: v[k]
  }

  lemma NamedRead(v: ComponentVersions)
    requires Storable(v)
    ensures var parsed := DisplayNames(DisplayNameLabel(Named(v)));
            parsed.Ok? && forall k :: k in v ==> NameOf(parsed.value, k) == v[k].displayName
  {
    if Named(v) == map[] {
      EmptyMapLabels(Named(v));
      forall k | k in v ensures v[k].displayName == "" {
        assert k !in Named(v);
      }
    } else {
      DisplayNameLabelRead(Named(v));
    }
  }

  lemma StorableReturned(v: ComponentVersions)
    requires Storable(v)
    ensures exists versions, displayNames :: Parse(versions, displayNames) == Ok(v)
  {
    if v == map[] {
      EmptyMapLabels(v);
    } else {
      NamedRead(v);
      VersionLabelRead(v, DisplayNameLabel(Named(v)));
    }
  }

  /** The parser returns exactly the storable maps. */
  lemma ParserImage(v: ComponentVersions)
    ensures Storable(v) <==> exists versions, displayNames :: Parse(versions, displayNames) == Ok(v)
  {
    if Storable(v) {
      StorableReturned(v);
    } else {
      forall versions, displayNames ensures Parse(versions, displayNames) != Ok(v) {
        if Parse(versions, displayNames).Ok? {
          ParseStorable(versions, displayNames);
        }
      }
    }
  }

  function Unnamed(v: ComponentVersions): ComponentVersions {
    map k | k in v :: ComponentVersion(v[k].version, "")
  }

  lemma {:induction false} UnnamedSegments(ks: seq<string>, v: ComponentVersions)
    requires forall k :: k in ks ==> k in v
    ensures Segments(ks, Unnamed(v), VersionSegment) == Segments(ks, v, VersionSegment)
  {
    if ks != [] {
      assert ks[0] in ks;
      UnnamedSegments(ks[1..], v);
    }
  }

  /** Printing the parse of any accepted label gives a normal form: its pairs are
      in strictly increasing key order and carry no build metadata, it reparses
      to the same versions, and printing that changes nothing more. */
  lemma VersionLabelNormalForm(versions: string, displayNames: string)
    requires Parse(versions, displayNames).Ok?
    ensures var v := Parse(versions, displayNames).value;
            var printed := VersionLabel(v);
            && (v != map[] ==>
                  exists ks :: Enumerates(ks, v.Keys) && Split(printed, ',') == Segments(ks, v, VersionSegment))
            && '+' !in printed
            && Parse(printed, "") == Ok(Unnamed(v))
            && VersionLabel(Parse(printed, "").value) == printed
  {
    var v := Parse(versions, displayNames).value;
    var u := Unnamed(v);
    ParseStorable(versions, displayNames);
    assert u.Keys == v.Keys;
    UnnamedSegments(Sorted(v.Keys), v);
    forall k | k in u ensures StorableEntry(k, u[k]) {
      assert StorableEntry(k, v[k]);
    }
    if v == map[] {
      EmptyMapLabels(v);
      assert u == map[];
    } else {
      VersionLabelSplits(v);
      assert Enumerates(Sorted(v.Keys), v.Keys);
      assert Sorted(v.Keys)[0] in v.Keys;
      assert u != map[];
      VersionLabelRead(u, "");
    }
  }
}
