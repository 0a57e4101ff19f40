/** The component images of a release and their static overrides
    (pkg/releaseinfo/releaseinfo.go ComponentImages, static_provider.go). */
module ReleaseImages {
  import opened Base
  import opened ComponentMerge

  /** An image stream object, shared by everybody who has looked it up. */
  class ImageStream {
    var tags: seq<TagReference>

    constructor (tags: seq<TagReference>)
      ensures this.tags == tags
    {
      this.tags := tags;
    }
  }

  /** Image by component name; a later tag of the same name wins. */
  function Images(tags: seq<TagReference>): map<string, string> {
    if tags == [] then map[]
    else
      var last := tags[|tags| - 1];
      Images(tags[..|tags| - 1])[last.name := last.from]
  }

  lemma ImagesAppend(tags: seq<TagReference>, t: TagReference)
    ensures Images(tags + [t]) == Images(tags)[t.name := t.from]
  {
    assert (tags + [t])[..|tags|] == tags;
  }

  /** releaseinfo.go ComponentImages. */
  method ComponentImages(release: ImageStream) returns (images: map<string, string>)
    ensures images == Images(release.tags)
  {
    images := map[];
    var i := 0;
    while i < |release.tags|
      invariant 0 <= i <= |release.tags|
      invariant images == Images(release.tags[..i])
    {
      assert release.tags[..i + 1] == release.tags[..i] + [release.tags[i]];
      ImagesAppend(release.tags[..i], release.tags[i]);
      images := images[release.tags[i].name := release.tags[i].from];
      i := i + 1;
    }
    assert release.tags[..i] == release.tags;
  }

  lemma {:induction false} ImagesConcat(a: seq<TagReference>, b: seq<TagReference>)
    ensures Images(a + b) == Images(a) + Images(b)
  {
    if b == [] {
      assert a + b == a;
    } else {
      var n := |b| - 1;
      assert (a + b)[..|a + b| - 1] == a + b[..n];
      ImagesConcat(a, b[..n]);
    }
  }

  /** One lookup appended some order of the static images to what was there. */
  ghost predicate Overlaid(before: seq<TagReference>, after: seq<TagReference>, overrides: map<string, string>) {
    exists added :: after == before + added && Images(added) == overrides
  }

  datatype Lookup<E> = Found(release: ImageStream) | LookupFailed(error: E)

  /** StaticProviderDecorator: the delegate's answer with the static images appended
      to the delegate's own object, in whatever order the map yields them. */
  class StaticProviderDecorator {
    var componentImages: Option<map<string, string>>

    constructor (componentImages: Option<map<string, string>>)
      ensures this.componentImages == componentImages
    {
      this.componentImages := componentImages;
    }

    method Lookup<E>(delegate: Lookup<E>) returns (r: Lookup<E>)
      modifies if delegate.Found? then {delegate.release} else {}
      ensures r == delegate
      ensures r.Found? && componentImages.None? ==> r.release.tags == old(delegate.release.tags)
      ensures r.Found? && componentImages.Some? ==>
                Overlaid(old(delegate.release.tags), r.release.tags, componentImages.value)
    {
      r := delegate;
      if r.LookupFailed? || componentImages.None? {
        return;
      }
      var overrides := componentImages.value;
      var rest := overrides.Keys;
      ghost var before, added: seq<TagReference> := r.release.tags, [];
      while rest != {}
        invariant rest <= overrides.Keys && r == delegate
        invariant r.release.tags == before + added
        invariant Images(added).Keys == overrides.Keys - rest
        invariant forall k :: k in Images(added) ==> Images(added)[k] == overrides[k]
      {
        var component :| component in rest;
        var ref := TagReference(component, map[], overrides[component]);
        ImagesAppend(added, ref);
        r.release.tags := r.release.tags + [ref];
        added := added + [ref];
        rest := rest - {component};
      }
      assert Images(added) == overrides;
    }
  }

  /** The decorated answer maps every component as the delegate does, overridden by the
      static images. */
  lemma OverlayImages(before: seq<TagReference>, after: seq<TagReference>, overrides: map<string, string>)
    requires Overlaid(before, after, overrides)
    ensures Images(after) == Images(before) + overrides
  {
    var added :| after == before + added && Images(added) == overrides;
    ImagesConcat(before, added);
  }

  /** However often the shared object is looked up, and in whatever order each lookup
      appended, its component images are the original ones overridden once. */
  lemma {:induction false} RepeatedLookups(history: seq<seq<TagReference>>, overrides: map<string, string>)
    requires |history| > 1
    requires forall i :: 0 <= i < |history| - 1 ==> Overlaid(history[i], history[i + 1], overrides)
    ensures Images(history[|history| - 1]) == Images(history[0]) + overrides
  {
    var n := |history| - 1;
    assert Overlaid(history[n - 1], history[n], overrides);
    OverlayImages(history[n - 1], history[n], overrides);
    if n > 1 {
      RepeatedLookups(history[..n], overrides);
    }
  }
}
