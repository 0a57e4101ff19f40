/** Merging the build-version labels of all image tags of a release
    (pkg/releaseinfo/releaseinfo.go readComponentVersions). */
module ComponentMerge {
  import opened Base
  import opened Text
  import opened VersionLabels

  const VERSIONS_ANNOTATION := "io.openshift.build.versions"
  const DISPLAY_NAMES_ANNOTATION := "io.openshift.build.version-display-names"

  datatype TagReference = TagReference(name: string, annotations: map<string, string>, from: string)

  datatype MergeError =
    | InvalidAnnotation(tag: string, cause: LabelError)
    | MultipleReported(components: seq<string>)

  // ----- what each tag contributes -----

  /** What one tag says: the entries of its label, or why the label was refused. */
  datatype Reading = Reading(entries: ComponentVersions, failure: Option<MergeError>)

  predicate Annotated(t: TagReference) {
    VERSIONS_ANNOTATION in t.annotations
  }

  function ParseTag(t: TagReference): Result<ComponentVersions, LabelError>
    requires Annotated(t)
  {
    Parse(t.annotations[VERSIONS_ANNOTATION], NameOf(t.annotations, DISPLAY_NAMES_ANNOTATION))
  }

  function ReadTag(t: TagReference): Reading {
    if !Annotated(t) then Reading(map[], None)
    else
      match ParseTag(t)
      case Ok(v) => Reading(v, None)
      case Err(e) => Reading(map[], Some(InvalidAnnotation(t.name, e)))
  }

  function FlatMap<A, B>(f: A -> seq<B>, s: seq<A>): seq<B> {
    if s == [] then [] else FlatMap(f, s[..|s| - 1]) + f(s[|s| - 1])
  }

  function OneReading(t: TagReference): seq<Reading> {
    [ReadTag(t)]
  }

  function OneFailure(r: Reading): seq<MergeError> {
    if r.failure.Some? then [r.failure.value] else []
  }

  function Readings(tags: seq<TagReference>): seq<Reading> {
    FlatMap(OneReading, tags)
  }

  function ParseErrors(rs: seq<Reading>): seq<MergeError> {
    FlatMap(OneFailure, rs)
  }

  // ----- the merge, as a function of the set of readings -----

  function Components(rs: seq<Reading>): set<string> {
    if rs == [] then {} else Components(rs[..|rs| - 1]) + rs[|rs| - 1].entries.Keys
  }

  function VersionIn(r: Reading, k: string): set<string> {
    if k in r.entries then {r.entries[k].version} else {}
  }

  function DisplayNameIn(r: Reading, k: string): set<string> {
    if k in r.entries then {r.entries[k].displayName} else {}
  }

  /** All versions, and all display names, reported for a component. */
  function Versions(rs: seq<Reading>, k: string): set<string> {
    if rs == [] then {} else Versions(rs[..|rs| - 1], k) + VersionIn(rs[|rs| - 1], k)
  }

  function DisplayNamesOf(rs: seq<Reading>, k: string): set<string> {
    if rs == [] then {} else DisplayNamesOf(rs[..|rs| - 1], k) + DisplayNameIn(rs[|rs| - 1], k)
  }

  lemma {:induction false} Reported(rs: seq<Reading>, k: string)
    ensures k in Components(rs) <==> exists r :: r in rs && k in r.entries
    ensures forall x :: x in Versions(rs, k) <==> exists r :: r in rs && k in r.entries && r.entries[k].version == x
    ensures forall x :: x in DisplayNamesOf(rs, k) <==>
                        exists r :: r in rs && k in r.entries && r.entries[k].displayName == x
  {
    if rs != [] {
      var n := |rs| - 1;
      Reported(rs[..n], k);
      assert forall r :: r in rs <==> r in rs[..n] || r == rs[n];
    }
  }

  /** The components with two or more distinct versions or display names. */
  ghost function Conflicts(rs: seq<Reading>): set<string> {
    set k | k in Components(rs) && (|Versions(rs, k)| > 1 || |DisplayNamesOf(rs, k)| > 1)
  }

  ghost function Errors(rs: seq<Reading>): seq<MergeError> {
    ParseErrors(rs) + if Conflicts(rs) == {} then [] else [MultipleReported(Sorted(Conflicts(rs)))]
  }

  /** Every component of every tag, each with the least version and the least
      display name reported for it. */
  ghost predicate IsMerged(out: ComponentVersions, rs: seq<Reading>) {
    out.Keys == Components(rs) &&
    forall k :: k in out ==>
      IsLeast(out[k].version, Versions(rs, k)) && IsLeast(out[k].displayName, DisplayNamesOf(rs, k))
  }

  // ----- the three loops of the source -----

  function Collected(m: map<string, set<string>>, k: string): set<string> {
    if k in m then m[k] else {}
  }

  /** The sets collected so far are those of the given readings. */
  ghost predicate Collects(combined: map<string, set<string>>, names: map<string, set<string>>, rs: seq<Reading>) {
    combined.Keys == names.Keys == Components(rs) &&
    forall k :: k in combined ==> combined[k] == Versions(rs, k) && names[k] == DisplayNamesOf(rs, k)
  }

  lemma OneMore(rs: seq<Reading>, r: Reading, k: string)
    ensures Components(rs + [r]) == Components(rs) + r.entries.Keys
    ensures Versions(rs + [r], k) == Versions(rs, k) + VersionIn(r, k)
    ensures DisplayNamesOf(rs + [r], k) == DisplayNamesOf(rs, k) + DisplayNameIn(r, k)
  {
    assert (rs + [r])[..|rs|] == rs;
  }

  lemma NoneYet(rs: seq<Reading>, k: string)
    requires k !in Components(rs)
    ensures Versions(rs, k) == DisplayNamesOf(rs, k) == {}
  {
    Reported(rs, k);
  }

  /** The entries handled so far, as a reading of their own. */
  ghost function Part(all: ComponentVersions, done: set<string>): Reading {
    Reading(map k | k in all && k in done :: all[k], None)
  }

  /** Both say the same about every component. */
  ghost predicate SameReports(rs: seq<Reading>, rs': seq<Reading>) {
    Components(rs) == Components(rs') &&
    forall k :: Versions(rs, k) == Versions(rs', k) && DisplayNamesOf(rs, k) == DisplayNamesOf(rs', k)
  }

  lemma SameReportsCollect(combined: map<string, set<string>>, names: map<string, set<string>>,
                           rs: seq<Reading>, rs': seq<Reading>)
    requires SameReports(rs, rs') && Collects(combined, names, rs)
    ensures Collects(combined, names, rs')
  {
  }

  lemma SameEntries(rs: seq<Reading>, r: Reading)
    requires r.entries == map[]
    ensures SameReports(rs, rs + [r])
  {
    forall k ensures Versions(rs + [r], k) == Versions(rs, k) && DisplayNamesOf(rs + [r], k) == DisplayNamesOf(rs, k) {
      OneMore(rs, r, k);
    }
    OneMore(rs, r, "");
  }

  /** The reports do not see whether a reading failed. */
  lemma FailureIgnored(rs: seq<Reading>, r: Reading)
    ensures SameReports(rs + [Reading(r.entries, None)], rs + [r])
  {
    var plain := Reading(r.entries, None);
    forall k
      ensures Versions(rs + [r], k) == Versions(rs + [plain], k)
      ensures DisplayNamesOf(rs + [r], k) == DisplayNamesOf(rs + [plain], k)
    {
      OneMore(rs, r, k);
      OneMore(rs, plain, k);
    }
    OneMore(rs, r, "");
    OneMore(rs, plain, "");
  }

  /** rs' reports what rs does and one version and display name for k besides. */
  ghost predicate ReportsMore(rs: seq<Reading>, rs': seq<Reading>, k: string, c: ComponentVersion) {
    Components(rs') == Components(rs) + {k} &&
    (forall x :: x != k ==> Versions(rs', x) == Versions(rs, x) && DisplayNamesOf(rs', x) == DisplayNamesOf(rs, x)) &&
    Versions(rs', k) == Versions(rs, k) + {c.version} &&
    DisplayNamesOf(rs', k) == DisplayNamesOf(rs, k) + {c.displayName}
  }

  lemma PartGrows(rs: seq<Reading>, all: ComponentVersions, done: set<string>, k: string)
    requires k in all && k !in done
    ensures ReportsMore(rs + [Part(all, done)], rs + [Part(all, done + {k})], k, all[k])
  {
    var before, after := Part(all, done), Part(all, done + {k});
    assert after.entries == before.entries[k := all[k]];
    forall x
      ensures Versions(rs + [before], x) == Versions(rs, x) + VersionIn(before, x)
      ensures Versions(rs + [after], x) == Versions(rs, x) + VersionIn(after, x)
      ensures DisplayNamesOf(rs + [before], x) == DisplayNamesOf(rs, x) + DisplayNameIn(before, x)
      ensures DisplayNamesOf(rs + [after], x) == DisplayNamesOf(rs, x) + DisplayNameIn(after, x)
    {
      OneMore(rs, before, x);
      OneMore(rs, after, x);
    }
    OneMore(rs, before, k);
    OneMore(rs, after, k);
  }

  lemma AddEntry(combined: map<string, set<string>>, names: map<string, set<string>>,
                 rs: seq<Reading>, rs': seq<Reading>, k: string, c: ComponentVersion)
    requires Collects(combined, names, rs) && ReportsMore(rs, rs', k, c)
    ensures Collects(combined[k := Collected(combined, k) + {c.version}],
                     names[k := Collected(names, k) + {c.displayName}], rs')
  {
    var combined' := combined[k := Collected(combined, k) + {c.version}];
    var names' := names[k := Collected(names, k) + {c.displayName}];
    if k !in combined {
      NoneYet(rs, k);
    }
    forall x | x in combined'
      ensures combined'[x] == Versions(rs', x) && names'[x] == DisplayNamesOf(rs', x)
    {
      if x != k {
        assert x in combined && combined'[x] == combined[x] && names'[x] == names[x];
      }
    }
  }

  lemma PartEnds(rs: seq<Reading>, all: ComponentVersions)
    ensures SameReports(rs, rs + [Part(all, {})])
    ensures Part(all, all.Keys) == Reading(all, None)
  {
    SameEntries(rs, Part(all, {}));
  }

  lemma PartStep(combined: map<string, set<string>>, names: map<string, set<string>>, rs: seq<Reading>,
                 all: ComponentVersions, done: set<string>, k: string)
    requires k in all && k !in done && Collects(combined, names, rs + [Part(all, done)])
    ensures Collects(combined[k := Collected(combined, k) + {all[k].version}],
                     names[k := Collected(names, k) + {all[k].displayName}], rs + [Part(all, done + {k})])
  {
    PartGrows(rs, all, done, k);
    AddEntry(combined, names, rs + [Part(all, done)], rs + [Part(all, done + {k})], k, all[k]);
  }

  /** The parsed entries of one tag, in whatever order the map yields them. */
  method AddAll(all: ComponentVersions, combined: map<string, set<string>>, names: map<string, set<string>>,
                ghost rs: seq<Reading>)
    returns (combined': map<string, set<string>>, names': map<string, set<string>>)
    requires Collects(combined, names, rs)
    ensures Collects(combined', names', rs + [Reading(all, None)])
  {
    combined', names' := combined, names;
    var rest := all.Keys;
    ghost var done: set<string> := {};
    PartEnds(rs, all);
    SameReportsCollect(combined, names, rs, rs + [Part(all, {})]);
    while rest != {}
      invariant done !! rest && done + rest == all.Keys
      invariant Collects(combined', names', rs + [Part(all, done)])
    {
      var k :| k in rest;
      PartStep(combined', names', rs, all, done, k);
      var existing := Collected(combined', k);
      combined' := combined'[k := existing + {all[k].version}];
      var existingDisplayName := Collected(names', k);
      names' := names'[k := existingDisplayName + {all[k].displayName}];
      rest := rest - {k};
      done := done + {k};
    }
  }

  method Least(s: set<string>) returns (m: string)
    requires s != {}
    ensures IsLeast(m, s)
  {
    var sorted := SortedKeys(s);
    SortedLeast(s);
    m := sorted[0];
  }

  lemma FlatMapTake<A, B>(f: A -> seq<B>, s: seq<A>, i: nat)
    requires i < |s|
    ensures FlatMap(f, s[..i + 1]) == FlatMap(f, s[..i]) + f(s[i])
  {
    assert s[..i + 1][..i] == s[..i];
  }

  lemma FlatMapAppend<A, B>(f: A -> seq<B>, s: seq<A>, a: A)
    ensures FlatMap(f, s + [a]) == FlatMap(f, s) + f(a)
  {
    assert (s + [a])[..|s|] == s;
  }

  method CollectTags(tags: seq<TagReference>)
    returns (combined: map<string, set<string>>, names: map<string, set<string>>, errs: seq<MergeError>)
    ensures Collects(combined, names, Readings(tags))
    ensures errs == ParseErrors(Readings(tags))
  {
    combined, names, errs := map[], map[], [];
    var i := 0;
    while i < |tags|
      invariant 0 <= i <= |tags|
      invariant Collects(combined, names, Readings(tags[..i]))
      invariant errs == ParseErrors(Readings(tags[..i]))
    {
      var tag := tags[i];
      ghost var rs := Readings(tags[..i]);
      ghost var r := ReadTag(tag);
      FlatMapTake(OneReading, tags, i);
      FlatMapAppend(OneFailure, rs, r);
      if VERSIONS_ANNOTATION !in tag.annotations {
        SameEntries(rs, r);
        SameReportsCollect(combined, names, rs, rs + [r]);
        i := i + 1;
        continue;
      }
      var parsed := ParseComponentVersionsLabel(tag.annotations[VERSIONS_ANNOTATION],
                                                NameOf(tag.annotations, DISPLAY_NAMES_ANNOTATION));
      var all: ComponentVersions := map[];
      match parsed {
        case Err(e) => errs := errs + [InvalidAnnotation(tag.name, e)];
        case Ok(v) => all := v;
      }
      combined, names := AddAll(all, combined, names, rs);
      FailureIgnored(rs, r);
      SameReportsCollect(combined, names, rs + [Reading(all, None)], rs + [r]);
      i := i + 1;
    }
    assert tags[..i] == tags;
  }

  /** First pass over the sorted components: the least version of each. */
  method PickVersions(keys: seq<string>, combined: map<string, set<string>>)
    returns (out: ComponentVersions, multiples: set<string>)
    requires forall k :: k in keys ==> k in combined && combined[k] != {}
    ensures forall k :: k in out <==> k in keys
    ensures forall k :: k in out ==> IsLeast(out[k].version, combined[k]) && out[k].displayName == ""
    ensures forall k :: k in multiples <==> k in keys && |combined[k]| > 1
  {
    out, multiples := map[], {};
    var i := 0;
    while i < |keys|
      invariant 0 <= i <= |keys|
      invariant forall k :: k in out <==> k in keys[..i]
      invariant forall k :: k in out ==> IsLeast(out[k].version, combined[k]) && out[k].displayName == ""
      invariant forall k :: k in multiples <==> k in keys[..i] && |combined[k]| > 1
    {
      var k := keys[i];
      assert keys[..i + 1] == keys[..i] + [k];
      if |combined[k]| > 1 {
        multiples := multiples + {k};
      }
      var version := Least(combined[k]);
      out := out[k := ComponentVersion(version, "")];
      i := i + 1;
    }
    assert keys[..i] == keys;
  }

  /** Second pass: the least display name of each. */
  method PickDisplayNames(keys: seq<string>, names: map<string, set<string>>,
                          versions: ComponentVersions, conflicting: set<string>)
    returns (out: ComponentVersions, multiples: set<string>)
    requires StrictlySorted(keys) && forall k :: k in keys ==> k in versions && k in names && names[k] != {}
    requires forall k :: k in versions ==> k in keys && versions[k].displayName == ""
    ensures out.Keys == versions.Keys
    ensures forall k :: k in out ==> out[k].version == versions[k].version && IsLeast(out[k].displayName, names[k])
    ensures forall k :: k in multiples <==> k in conflicting || (k in keys && |names[k]| > 1)
  {
    out, multiples := versions, conflicting;
    var i := 0;
    while i < |keys|
      invariant 0 <= i <= |keys|
      invariant out.Keys == versions.Keys
      invariant forall k :: k in out ==> out[k].version == versions[k].version
      invariant forall k :: k in keys[..i] ==> IsLeast(out[k].displayName, names[k])
      invariant forall k :: k in out && k !in keys[..i] ==> out[k].displayName == ""
      invariant forall k :: k in multiples <==> k in conflicting || (k in keys[..i] && |names[k]| > 1)
    {
      var k := keys[i];
      assert keys[..i + 1] == keys[..i] + [k];
      KeyNotBefore(keys, i);
      if |names[k]| > 1 {
        multiples := multiples + {k};
      }
      var version := out[k];
      if |version.displayName| == 0 {
        var displayName := Least(names[k]);
        version := version.(displayName := displayName);
      }
      out := out[k := version];
      i := i + 1;
    }
    assert keys[..i] == keys;
  }

  lemma ConflictsCollected(multiples: set<string>, keys: seq<string>, combined: map<string, set<string>>,
                           names: map<string, set<string>>, rs: seq<Reading>)
    requires Collects(combined, names, rs) && forall k :: k in keys <==> k in combined
    requires forall k :: k in multiples <==> (k in keys && |combined[k]| > 1) || (k in keys && |names[k]| > 1)
    ensures multiples == Conflicts(rs)
  {
    assert forall k :: k in multiples <==> k in Conflicts(rs);
  }

  /** releaseinfo.go readComponentVersions. */
  method ReadComponentVersions(tags: seq<TagReference>) returns (out: ComponentVersions, errs: seq<MergeError>)
    ensures IsMerged(out, Readings(tags))
    ensures errs == Errors(Readings(tags))
  {
    ghost var rs := Readings(tags);
    var combined, names;
    combined, names, errs := CollectTags(tags);
    var keys := SortedKeys(combined.Keys);
    forall k | k in keys ensures k in Components(rs) && combined[k] != {} && names[k] != {} {
      assert k in combined.Keys;
      NonEmptySets(rs, k);
    }
    var multiples;
    out, multiples := PickVersions(keys, combined);
    out, multiples := PickDisplayNames(keys, names, out, multiples);
    assert out.Keys == combined.Keys;
    ConflictsCollected(multiples, keys, combined, names, rs);
    if multiples != {} {
      var listed := SortedKeys(multiples);
      errs := errs + [MultipleReported(listed)];
    }
  }

  lemma KeyNotBefore(keys: seq<string>, i: nat)
    requires StrictlySorted(keys) && i < |keys|
    ensures keys[i] !in keys[..i]
  {
    LessIrreflexive(keys[i]);
  }

  lemma NonEmptySets(rs: seq<Reading>, k: string)
    requires k in Components(rs)
    ensures Versions(rs, k) != {} && DisplayNamesOf(rs, k) != {}
  {
    Reported(rs, k);
    var r :| r in rs && k in r.entries;
    assert r.entries[k].version in Versions(rs, k);
    assert r.entries[k].displayName in DisplayNamesOf(rs, k);
  }

  // ----- what the result means -----

  lemma MergedUnique(a: ComponentVersions, b: ComponentVersions, rs: seq<Reading>, rs': seq<Reading>)
    requires SameReports(rs, rs') && IsMerged(a, rs) && IsMerged(b, rs')
    ensures a == b
  {
    assert a.Keys == b.Keys;
    forall k | k in a.Keys ensures a[k] == b[k] {
      LeastUnique(a[k].version, b[k].version, Versions(rs, k));
      LeastUnique(a[k].displayName, b[k].displayName, DisplayNamesOf(rs, k));
    }
  }

  lemma SameConflicts(rs: seq<Reading>, rs': seq<Reading>)
    requires SameReports(rs, rs')
    ensures Conflicts(rs) == Conflicts(rs')
  {
    assert forall k :: k in Conflicts(rs) <==> k in Conflicts(rs');
  }

  lemma LeastUnique(m: string, n: string, s: set<string>)
    requires IsLeast(m, s) && IsLeast(n, s)
    ensures m == n
  {
    if m != n {
      LessTransitive(m, n, m);
      LessIrreflexive(m);
    }
  }

  lemma ManyMeansTwo(s: set<string>)
    ensures |s| > 1 <==> exists x, y :: x in s && y in s && x != y
  {
    if |s| > 1 {
      var x :| x in s;
      assert |s - {x}| > 0;
      var y :| y in s - {x};
    }
    forall x, y | x in s && y in s && x != y ensures |s| > 1 {
      assert {x, y} <= s;
      SubsetSize({x, y}, s);
    }
  }

  lemma SubsetSize(a: set<string>, b: set<string>)
    requires a <= b
    ensures |a| <= |b|
  {
    assert b == a + (b - a);
    assert |b| == |a| + |b - a|;
  }

  /** Two tags report different versions or display names for a component. */
  ghost predicate Disagree(rs: seq<Reading>, k: string) {
    exists r, u :: r in rs && u in rs && k in r.entries && k in u.entries && r.entries[k] != u.entries[k]
  }

  /** The conflicts are exactly the components on which two readings disagree. */
  lemma DisagreementDecides(rs: seq<Reading>, k: string)
    ensures k in Conflicts(rs) <==> Disagree(rs, k)
  {
    Reported(rs, k);
    ManyMeansTwo(Versions(rs, k));
    ManyMeansTwo(DisplayNamesOf(rs, k));
    if Disagree(rs, k) {
      var r, u :| r in rs && u in rs && k in r.entries && k in u.entries && r.entries[k] != u.entries[k];
      assert r.entries[k].version in Versions(rs, k) && u.entries[k].version in Versions(rs, k);
      assert r.entries[k].displayName in DisplayNamesOf(rs, k) && u.entries[k].displayName in DisplayNamesOf(rs, k);
    }
  }

  lemma {:induction false} NoParseErrors(rs: seq<Reading>)
    ensures ParseErrors(rs) == [] <==> forall r :: r in rs ==> r.failure.None?
  {
    if rs != [] {
      var n := |rs| - 1;
      NoParseErrors(rs[..n]);
      assert rs == rs[..n] + [rs[n]];
      assert forall r :: r in rs <==> r in rs[..n] || r == rs[n];
    }
  }

  lemma {:induction false} ReadingsOf(tags: seq<TagReference>)
    ensures |Readings(tags)| == |tags| && forall i :: 0 <= i < |tags| ==> Readings(tags)[i] == ReadTag(tags[i])
  {
    if tags != [] {
      ReadingsOf(tags[..|tags| - 1]);
    }
  }

  /** No errors exactly when every annotated tag parses and the readings agree. */
  lemma NoErrors(tags: seq<TagReference>)
    ensures Errors(Readings(tags)) == [] <==>
            (forall i :: 0 <= i < |tags| && Annotated(tags[i]) ==> ParseTag(tags[i]).Ok?) &&
            (forall k :: !Disagree(Readings(tags), k))
  {
    var rs := Readings(tags);
    ReadingsOf(tags);
    NoParseErrors(rs);
    forall k ensures k in Conflicts(rs) <==> Disagree(rs, k) {
      DisagreementDecides(rs, k);
    }
    if Conflicts(rs) != {} {
      var k :| k in Conflicts(rs);
      assert Disagree(rs, k);
    }
    assert (forall r :: r in rs ==> r.failure.None?) <==>
           forall i :: 0 <= i < |tags| && Annotated(tags[i]) ==> ParseTag(tags[i]).Ok? by {
      FailuresOf(tags);
    }
  }

  lemma FailuresOf(tags: seq<TagReference>)
    ensures (forall r :: r in Readings(tags) ==> r.failure.None?) <==>
            forall i :: 0 <= i < |tags| && Annotated(tags[i]) ==> ParseTag(tags[i]).Ok?
  {
    ReadingsOf(tags);
    var rs := Readings(tags);
    if forall r :: r in rs ==> r.failure.None? {
      forall i | 0 <= i < |tags| && Annotated(tags[i]) ensures ParseTag(tags[i]).Ok? {
        assert rs[i] in rs;
      }
    }
  }

  /** A clean merge is the union of the readings. */
  lemma UnionOfReadings(out: ComponentVersions, rs: seq<Reading>)
    requires IsMerged(out, rs) && Errors(rs) == []
    ensures forall r, k :: r in rs && k in r.entries ==> k in out && out[k] == r.entries[k]
    ensures forall k :: k in out ==> exists r :: r in rs && k in r.entries
  {
    forall k | k in out ensures exists r :: r in rs && k in r.entries {
      Reported(rs, k);
    }
    forall r, k | r in rs && k in r.entries
      ensures k in out && out[k] == r.entries[k]
    {
      Reported(rs, k);
      DisagreementDecides(rs, k);
      var u :| u in rs && k in u.entries && u.entries[k].version == out[k].version;
      var w :| w in rs && k in w.entries && w.entries[k].displayName == out[k].displayName;
    }
  }

  // ----- the same, said of the annotations -----

  /** The reading of a tag's version label under its display-name label. */
  function LabelOf(t: TagReference): Result<ComponentVersions, LabelError>
    requires "io.openshift.build.versions" in t.annotations
  {
    var names := "io.openshift.build.version-display-names";
    Parse(t.annotations["io.openshift.build.versions"], if names in t.annotations then t.annotations[names] else "")
  }

  /** The tag is annotated with a version label that is accepted and has this entry. */
  ghost predicate Says(t: TagReference, k: string, c: ComponentVersion) {
    "io.openshift.build.versions" in t.annotations &&
    LabelOf(t).Ok? && k in LabelOf(t).value && LabelOf(t).value[k] == c
  }

  /** The tag is annotated with a version label that is refused. */
  ghost predicate Refused(t: TagReference) {
    "io.openshift.build.versions" in t.annotations && LabelOf(t).Err?
  }

  lemma SaysItsReading(t: TagReference, k: string)
    ensures forall c :: Says(t, k, c) <==> k in ReadTag(t).entries && ReadTag(t).entries[k] == c
    ensures Refused(t) <==> Annotated(t) && ParseTag(t).Err?
  {
  }

  /** Some tag says it. */
  ghost predicate Said(tags: seq<TagReference>, k: string, c: ComponentVersion) {
    exists t :: t in tags && Says(t, k, c)
  }

  ghost predicate InReadings(rs: seq<Reading>, k: string, c: ComponentVersion) {
    exists r :: r in rs && k in r.entries && r.entries[k] == c
  }

  lemma ReadingOf(tags: seq<TagReference>, r: Reading)
    ensures r in Readings(tags) <==> exists t :: t in tags && ReadTag(t) == r
  {
    ReadingsOf(tags);
    if r in Readings(tags) {
      var i :| 0 <= i < |tags| && Readings(tags)[i] == r;
      assert tags[i] in tags && ReadTag(tags[i]) == r;
    }
    forall t | t in tags && ReadTag(t) == r ensures r in Readings(tags) {
      var i :| 0 <= i < |tags| && tags[i] == t;
      assert Readings(tags)[i] == r;
    }
  }

  /** Something is said by a tag exactly when it is in a reading. */
  lemma SaidIsRead(tags: seq<TagReference>, k: string, c: ComponentVersion)
    ensures Said(tags, k, c) <==> InReadings(Readings(tags), k, c)
  {
    if t :| t in tags && Says(t, k, c) {
      SaysItsReading(t, k);
      ReadingOf(tags, ReadTag(t));
    }
    if r :| r in Readings(tags) && k in r.entries && r.entries[k] == c {
      ReadingOf(tags, r);
      var t :| t in tags && ReadTag(t) == r;
      SaysItsReading(t, k);
    }
  }

  /** Two different things are said of the component. */
  ghost predicate SaidTwice(tags: seq<TagReference>, k: string) {
    exists c, d :: Said(tags, k, c) && Said(tags, k, d) && c != d
  }

  lemma DisagreementOfTags(tags: seq<TagReference>, k: string)
    ensures Disagree(Readings(tags), k) <==> SaidTwice(tags, k)
  {
    var rs := Readings(tags);
    if r, u :| r in rs && u in rs && k in r.entries && k in u.entries && r.entries[k] != u.entries[k] {
      assert InReadings(rs, k, r.entries[k]) && InReadings(rs, k, u.entries[k]);
      SaidIsRead(tags, k, r.entries[k]);
      SaidIsRead(tags, k, u.entries[k]);
    }
    if c, d :| Said(tags, k, c) && Said(tags, k, d) && c != d {
      SaidIsRead(tags, k, c);
      SaidIsRead(tags, k, d);
    }
  }

  /** The reported conflicts are exactly the components of which the tags say two
      different things. */
  lemma ConflictsExact(tags: seq<TagReference>, k: string)
    ensures k in Conflicts(Readings(tags)) <==> SaidTwice(tags, k)
  {
    DisagreementDecides(Readings(tags), k);
    DisagreementOfTags(tags, k);
  }

  /** The merge reports nothing if and only if no tag's label is refused and the tags say
      one thing of each component. */
  lemma CleanExactlyWhenConsistent(tags: seq<TagReference>)
    ensures Errors(Readings(tags)) == [] <==>
            (forall t :: t in tags ==> !Refused(t)) && (forall k :: !SaidTwice(tags, k))
  {
    NoErrors(tags);
    forall k ensures Disagree(Readings(tags), k) <==> SaidTwice(tags, k) {
      DisagreementOfTags(tags, k);
    }
    forall i | 0 <= i < |tags| ensures Refused(tags[i]) <==> Annotated(tags[i]) && ParseTag(tags[i]).Err? {
      SaysItsReading(tags[i], "");
    }
  }

  /** A clean merge is the union of what the tags say: nothing else, nothing lost. */
  lemma CleanMergeIsUnion(out: ComponentVersions, tags: seq<TagReference>, k: string, c: ComponentVersion)
    requires IsMerged(out, Readings(tags)) && Errors(Readings(tags)) == []
    ensures k in out && out[k] == c <==> Said(tags, k, c)
  {
    SaidIsRead(tags, k, c);
    UnionAt(out, Readings(tags), k, c);
  }

  lemma UnionAt(out: ComponentVersions, rs: seq<Reading>, k: string, c: ComponentVersion)
    requires IsMerged(out, rs) && Errors(rs) == []
    ensures k in out && out[k] == c <==> InReadings(rs, k, c)
  {
    UnionOfReadings(out, rs);
    if k in out && out[k] == c {
      var r :| r in rs && k in r.entries;
    }
  }

  lemma LeastReported(out: ComponentVersions, rs: seq<Reading>, k: string)
    requires IsMerged(out, rs)
    ensures k in out <==> exists c :: InReadings(rs, k, c)
    ensures k in out ==> exists c :: InReadings(rs, k, c) && c.version == out[k].version
    ensures k in out ==> exists c :: InReadings(rs, k, c) && c.displayName == out[k].displayName
    ensures forall c :: InReadings(rs, k, c) ==>
              !Less(c.version, out[k].version) && !Less(c.displayName, out[k].displayName)
  {
    Reported(rs, k);
    if r :| r in rs && k in r.entries {
      assert InReadings(rs, k, r.entries[k]);
    }
    if k in out {
      var r :| r in rs && k in r.entries && r.entries[k].version == out[k].version;
      var u :| u in rs && k in u.entries && u.entries[k].displayName == out[k].displayName;
      assert InReadings(rs, k, r.entries[k]) && InReadings(rs, k, u.entries[k]);
      LeastIsLeast(out[k].version, Versions(rs, k));
      LeastIsLeast(out[k].displayName, DisplayNamesOf(rs, k));
    }
  }

  /** Conflicting or not, each merged version and display name was said by some tag, and
      no tag says a lesser one. */
  lemma MergedIsLeast(out: ComponentVersions, tags: seq<TagReference>, k: string)
    requires IsMerged(out, Readings(tags))
    ensures k in out <==> exists c :: Said(tags, k, c)
    ensures k in out ==> exists c :: Said(tags, k, c) && c.version == out[k].version
    ensures k in out ==> exists c :: Said(tags, k, c) && c.displayName == out[k].displayName
    ensures forall c :: Said(tags, k, c) ==>
              !Less(c.version, out[k].version) && !Less(c.displayName, out[k].displayName)
  {
    LeastReported(out, Readings(tags), k);
    forall c ensures Said(tags, k, c) <==> InReadings(Readings(tags), k, c) {
      SaidIsRead(tags, k, c);
    }
  }

  lemma LeastIsLeast(m: string, s: set<string>)
    requires IsLeast(m, s)
    ensures forall x :: x in s ==> !Less(x, m)
  {
    forall x | x in s ensures !Less(x, m) {
      LessIrreflexive(m);
      if Less(x, m) && x != m {
        LessTransitive(m, x, m);
      }
    }
  }

  /** Reordering the tags, conflicting or not, changes neither the merged map nor
      the conflicts; the parse errors are only reordered. */
  lemma MergeOrderIndependent(out: ComponentVersions, out': ComponentVersions,
                              tags: seq<TagReference>, tags': seq<TagReference>)
    requires multiset(tags) == multiset(tags')
    requires IsMerged(out, Readings(tags)) && IsMerged(out', Readings(tags'))
    ensures out == out' && Conflicts(Readings(tags)) == Conflicts(Readings(tags'))
    ensures multiset(ParseErrors(Readings(tags))) == multiset(ParseErrors(Readings(tags')))
  {
    var rs, rs' := Readings(tags), Readings(tags');
    FlatMapPermute(OneReading, tags, tags');
    FlatMapPermute(OneFailure, rs, rs');
    SameElements(rs, rs');
    SameElementsReport(rs, rs');
    MergedUnique(out, out', rs, rs');
    SameConflicts(rs, rs');
  }

  lemma SameElementsReport(rs: seq<Reading>, rs': seq<Reading>)
    requires forall r :: r in rs <==> r in rs'
    ensures SameReports(rs, rs')
  {
    forall k
      ensures k in Components(rs) <==> k in Components(rs')
      ensures Versions(rs, k) == Versions(rs', k) && DisplayNamesOf(rs, k) == DisplayNamesOf(rs', k)
    {
      Reported(rs, k);
      Reported(rs', k);
    }
  }

  lemma SameElements<T>(s: seq<T>, s': seq<T>)
    requires multiset(s) == multiset(s')
    ensures forall x :: x in s <==> x in s'
  {
    forall x ensures x in s <==> x in s' {
      assert x in s <==> x in multiset(s);
      assert x in s' <==> x in multiset(s');
    }
  }

  /** Moving one element to the end only moves its images. */
  lemma {:induction false} FlatMapMove<A, B>(f: A -> seq<B>, s: seq<A>, i: nat)
    requires i < |s|
    ensures multiset(FlatMap(f, s)) == multiset(FlatMap(f, s[..i] + s[i + 1..])) + multiset(f(s[i]))
  {
    var n := |s| - 1;
    var moved := s[..i] + s[i + 1..];
    if i == n {
      assert moved == s[..n];
    } else {
      var shorter := s[..n][..i] + s[..n][i + 1..];
      FlatMapMove(f, s[..n], i);
      assert moved == shorter + [s[n]] && s == s[..n] + [s[n]];
      FlatMapAppend(f, shorter, s[n]);
      FlatMapAppend(f, s[..n], s[n]);
    }
  }

  lemma RemoveSame<A>(s: seq<A>, s': seq<A>, i: nat)
    requires s != [] && multiset(s) == multiset(s') && i < |s'| && s'[i] == s[|s| - 1]
    ensures multiset(s[..|s| - 1]) == multiset(s'[..i] + s'[i + 1..])
  {
    var n := |s| - 1;
    assert s == s[..n] + [s[n]];
    assert s' == s'[..i] + [s[n]] + s'[i + 1..];
    assert multiset(s[..n]) == multiset(s) - multiset{s[n]};
    assert multiset(s'[..i] + s'[i + 1..]) == multiset(s') - multiset{s[n]};
  }

  lemma {:induction false} FlatMapPermute<A, B>(f: A -> seq<B>, s: seq<A>, s': seq<A>)
    requires multiset(s) == multiset(s')
    ensures multiset(FlatMap(f, s)) == multiset(FlatMap(f, s'))
    decreases |s|
  {
    if s == [] {
      assert |multiset(s')| == 0;
    } else {
      var n := |s| - 1;
      assert s[n] in multiset(s');
      var i :| 0 <= i < |s'| && s'[i] == s[n];
      RemoveSame(s, s', i);
      FlatMapMove(f, s', i);
      FlatMapPermute(f, s[..n], s'[..i] + s'[i + 1..]);
    }
  }
}
