/** Owner references and their upsert modulo "same object"
    (pkg/controllers/kubeservice/reconciler.go). */
module OwnerRefs {
  import opened Base
  import opened Text

  datatype OwnerReference =
    OwnerReference(apiVersion: string, kind: string, name: string, uid: nat, blockOwnerDeletion: bool)

  datatype GroupVersion = GroupVersion(group: string, version: string)

  /** apimachinery's schema.ParseGroupVersion: at most one slash. */
  function ParseGroupVersion(gv: string): Option<GroupVersion> {
    if gv == "" || gv == "/" then Some(GroupVersion("", ""))
    else
      match Cut(gv, '/')
      case None => Some(GroupVersion("", gv))
      case Some((group, version)) =>
        if '/' in version then None else Some(GroupVersion(group, version))
  }

  predicate Parseable(r: OwnerReference) {
    ParseGroupVersion(r.apiVersion).Some?
  }

  predicate SameObject(a: OwnerReference, b: OwnerReference) {
    match (ParseGroupVersion(a.apiVersion), ParseGroupVersion(b.apiVersion))
    case (Some(ga), Some(gb)) => ga.group == gb.group && a.kind == b.kind && a.name == b.name
    case _ => false
  }

  /** A partial equivalence: symmetric, transitive, and reflexive exactly on
      references whose API version parses. */
  lemma SameObjectLaws(a: OwnerReference, b: OwnerReference, c: OwnerReference)
    ensures SameObject(a, a) <==> Parseable(a)
    ensures SameObject(a, b) ==> SameObject(b, a)
    ensures SameObject(a, b) && SameObject(b, c) ==> SameObject(a, c)
  {
  }

  /** An API version with one slash names its group before it, one without names none. */
  lemma GroupMeans(group: string, version: string)
    requires '/' !in group && '/' !in version
    ensures ParseGroupVersion(group + "/" + version).Some?
    ensures ParseGroupVersion(group + "/" + version).value.group == group
    ensures ParseGroupVersion(version).Some? && ParseGroupVersion(version).value.group == ""
  {
    CutAt(group, version, '/');
    CutNone(version, '/');
    assert group + "/" + version == group + ['/'] + version;
    if group + "/" + version == "/" {
      assert |group| + 1 + |version| == 1;
    }
  }

  /** The API version names the group: "group/version", or "version" for the core group. */
  ghost predicate NamesGroup(apiVersion: string, group: string) {
    exists version :: '/' !in group && '/' !in version &&
      (apiVersion == group + "/" + version || (group == "" && apiVersion == version))
  }

  lemma NamedGroup(apiVersion: string, group: string)
    ensures NamesGroup(apiVersion, group) <==>
            ParseGroupVersion(apiVersion).Some? && ParseGroupVersion(apiVersion).value.group == group
  {
    if NamesGroup(apiVersion, group) {
      var version :| '/' !in group && '/' !in version &&
        (apiVersion == group + "/" + version || (group == "" && apiVersion == version));
      GroupMeans(group, version);
    }
    if ParseGroupVersion(apiVersion).Some? && ParseGroupVersion(apiVersion).value.group == group {
      CutNone(apiVersion, '/');
      if apiVersion == "/" {
        assert apiVersion == "" + "/" + "" && '/' !in "";
      } else if Cut(apiVersion, '/').Some? {
        CutSome(apiVersion, '/');
        assert apiVersion == group + "/" + Cut(apiVersion, '/').value.1;
      }
    }
  }

  /** Two references are to the same object if and only if their API versions name the same
      group, whatever the version, and their kinds and names are equal; the uid and the
      blocking flag do not matter. */
  lemma SameObjectExactly(a: OwnerReference, b: OwnerReference)
    ensures SameObject(a, b) <==>
            a.kind == b.kind && a.name == b.name &&
            exists group :: NamesGroup(a.apiVersion, group) && NamesGroup(b.apiVersion, group)
  {
    forall group
      ensures NamesGroup(a.apiVersion, group) <==>
              ParseGroupVersion(a.apiVersion).Some? && ParseGroupVersion(a.apiVersion).value.group == group
      ensures NamesGroup(b.apiVersion, group) <==>
              ParseGroupVersion(b.apiVersion).Some? && ParseGroupVersion(b.apiVersion).value.group == group
    {
      NamedGroup(a.apiVersion, group);
      NamedGroup(b.apiVersion, group);
    }
    if SameObject(a, b) {
      assert NamesGroup(a.apiVersion, ParseGroupVersion(a.apiVersion).value.group);
    }
  }

  /** The parseable API versions are those with at most one slash. */
  lemma {:induction false} ParseableExactly(gv: string)
    ensures ParseGroupVersion(gv).Some? <==>
            !exists i, j :: 0 <= i < j < |gv| && gv[i] == '/' && gv[j] == '/'
  {
    CutNone(gv, '/');
    if Cut(gv, '/').Some? {
      CutSome(gv, '/');
      var (group, version) := Cut(gv, '/').value;
      if '/' in version {
        var k :| 0 <= k < |version| && version[k] == '/';
        assert gv[|group|] == '/' && gv[|group| + 1 + k] == '/';
      } else {
        forall i, j | 0 <= i < j < |gv| ensures gv[i] != '/' || gv[j] != '/' {
          if i < |group| {
            assert gv[i] == group[i];
          } else {
            assert gv[j] == version[j - |group| - 1];
          }
        }
      }
    }
  }

  // ----- the upsert -----

  function IndexOf(refs: seq<OwnerReference>, ref: OwnerReference): (i: int)
    ensures -1 <= i < |refs|
    ensures i >= 0 ==> SameObject(refs[i], ref)
    ensures forall k :: 0 <= k < (if i >= 0 then i else |refs|) ==> !SameObject(refs[k], ref)
  {
    if refs == [] then -1
    else if SameObject(refs[0], ref) then 0
    else
      var i := IndexOf(refs[1..], ref);
      if i == -1 then -1 else i + 1
  }

  function Upsert(refs: seq<OwnerReference>, ref: OwnerReference): seq<OwnerReference> {
    var i := IndexOf(refs, ref);
    if i == -1 then refs + [ref] else refs[i := ref]
  }

  lemma IndexUnique(refs: seq<OwnerReference>, ref: OwnerReference, i: int)
    requires -1 <= i < |refs|
    requires i >= 0 ==> SameObject(refs[i], ref)
    requires forall k :: 0 <= k < (if i >= 0 then i else |refs|) ==> !SameObject(refs[k], ref)
    ensures i == IndexOf(refs, ref)
  {
  }

  /** reconciler.go ensureOwnerRef: the found slot is overwritten in the caller's
      slice, otherwise a longer slice is returned. */
  method EnsureOwnerRef(refs: array<OwnerReference>, ref: OwnerReference) returns (out: array<OwnerReference>)
    modifies refs
    ensures out[..] == Upsert(old(refs[..]), ref)
    ensures out == refs || (fresh(out) && refs[..] == old(refs[..]))
  {
    var i := IndexOwnerRef(refs, ref);
    if i == -1 {
      out := new OwnerReference[refs.Length + 1](_ => ref);
      forall k | 0 <= k < refs.Length {
        out[k] := refs[k];
      }
      assert out[..] == refs[..] + [ref];
    } else {
      refs[i] := ref;
      out := refs;
    }
  }

  method IndexOwnerRef(refs: array<OwnerReference>, ref: OwnerReference) returns (i: int)
    ensures i == IndexOf(refs[..], ref)
  {
    i := 0;
    while i < refs.Length
      invariant 0 <= i <= refs.Length
      invariant forall k :: 0 <= k < i ==> !SameObject(refs[k], ref)
    {
      if SameObject(refs[i], ref) {
        IndexUnique(refs[..], ref, i);
        return;
      }
      i := i + 1;
    }
    i := -1;
    IndexUnique(refs[..], ref, i);
  }

  /** At most one reference to each object. */
  ghost predicate Unique(refs: seq<OwnerReference>) {
    forall i, j :: 0 <= i < j < |refs| ==> !SameObject(refs[i], refs[j])
  }

  /** The reference ends up in the list; positions and all other entries stay. */
  lemma UpsertKeeps(refs: seq<OwnerReference>, ref: OwnerReference)
    ensures ref in Upsert(refs, ref)
    ensures |refs| <= |Upsert(refs, ref)| <= |refs| + 1
    ensures forall k :: 0 <= k < |refs| && k != IndexOf(refs, ref) ==> Upsert(refs, ref)[k] == refs[k]
    ensures |Upsert(refs, ref)| == |refs| + 1 <==> forall k :: 0 <= k < |refs| ==> !SameObject(refs[k], ref)
  {
    var i := IndexOf(refs, ref);
    var u := Upsert(refs, ref);
    if i == -1 {
      assert u[|refs|] == ref;
    } else {
      assert u[i] == ref;
    }
  }

  /** A second upsert changes nothing exactly when the reference is parseable;
      an unparseable one is appended again every time. */
  lemma UpsertIdempotent(refs: seq<OwnerReference>, ref: OwnerReference)
    ensures Upsert(Upsert(refs, ref), ref) == Upsert(refs, ref) <==> Parseable(ref)
  {
    var i := IndexOf(refs, ref);
    var u := Upsert(refs, ref);
    if Parseable(ref) {
      var at := if i == -1 then |refs| else i;
      assert u[at] == ref && SameObject(u[at], ref);
      IndexUnique(u, ref, at);
      assert u[at := ref] == u;
    } else {
      assert i == -1;
      assert IndexOf(u, ref) == -1;
    }
  }

  /** Such a reference: with two slashes in its API version the list grows again. */
  lemma UnparseableGrows()
    ensures var ref := OwnerReference("a/b/c", "KubernetesService", "service", 0, true);
            !Parseable(ref) && Upsert(Upsert([], ref), ref) == [ref, ref]
  {
    var ref := OwnerReference("a/b/c", "KubernetesService", "service", 0, true);
    var v := ref.apiVersion;
    assert v[1] == '/' && v[3] == '/';
    ParseableExactly(v);
    assert IndexOf([ref], ref) == -1;
  }

  lemma UpsertUnique(refs: seq<OwnerReference>, ref: OwnerReference)
    requires Unique(refs)
    ensures Unique(Upsert(refs, ref))
  {
    var i := IndexOf(refs, ref);
    var u := Upsert(refs, ref);
    forall a, b | 0 <= a < b < |u| ensures !SameObject(u[a], u[b]) {
      if i != -1 && (a == i || b == i) {
        var other := if a == i then refs[b] else refs[a];
        SameObjectLaws(refs[i], ref, other);
        SameObjectLaws(other, ref, refs[i]);
        SameObjectLaws(ref, other, ref);
      }
    }
  }
}
