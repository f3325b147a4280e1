/** The choice of a bundle entry: `GetEntry` of bundleresolver/pkg/bundle/bundle.go. */
module Bundle {
  import opened Common
  import opened Protocol
  import opened Tearing

  const KIND := "dev.tekton.image.kind"
  const NAME := "dev.tekton.image.name"
  const API_VERSION := "dev.tekton.image.apiVersion"

  datatype Error =
    | KindMissing(layer: nat) | NameMissing(layer: nat) | ApiVersionMissing(layer: nat)
    | LayersUnreadable | DigestUnreadable | NotDecompressible | NoTarHeader | InvalidTar
    | SizeMismatch(expected: nat, received: nat) | ContentUnreadable | NoMatchingLayer

  datatype Result<T> = Ok(value: T) | Err(error: Error)

  datatype ReadError = NoError | EndOfFile | OtherError

  /** The first file of a tarball, and what a single `Read` into its buffer gives. */
  datatype TarFile = TarFile(size: nat, received: Bytes, error: ReadError)

  /** A decompressed layer, as a tarball and as raw content; `None` is a failed call. */
  datatype Content = Content(tar: Option<TarFile>, raw: Option<Bytes>)

  datatype ImageLayer = ImageLayer(digest: Option<string>, content: Option<Content>)

  datatype ManifestLayer = ManifestLayer(digest: string, annotations: map<string, string>)

  datatype Image = Image(manifest: seq<ManifestLayer>, layers: Option<seq<ImageLayer>>)

  datatype Options = Options(entryName: string, kind: string)

  datatype Entry = Entry(data: Bytes, annotations: Option<map<string, string>>)

  /** A reader never delivers more than its buffer holds. */
  predicate Readable(image: Image) {
    image.layers.Some? ==>
      forall l | l in image.layers.value && l.content.Some? && l.content.value.tar.Some? ::
        |l.content.value.tar.value.received| <= l.content.value.tar.value.size
  }

  // The choice, declaratively.

  predicate Complete(m: ManifestLayer) {
    KIND in m.annotations && NAME in m.annotations && API_VERSION in m.annotations
  }

  predicate Matches(m: ManifestLayer, opts: Options)
    requires Complete(m)
  {
    m.annotations[KIND] == opts.kind && m.annotations[NAME] == opts.entryName
  }

  /** The search for the manifest layer's digest ends at this image layer. */
  predicate Ends(l: ImageLayer, digest: string) {
    l.digest == None || l.digest == Some(digest)
  }

  predicate EndsAt(layers: seq<ImageLayer>, digest: string, j: int) {
    0 <= j < |layers| && Ends(layers[j], digest) && forall k | 0 <= k < j :: !Ends(layers[k], digest)
  }

  predicate NeverEnds(layers: seq<ImageLayer>, digest: string) {
    forall k | 0 <= k < |layers| :: !Ends(layers[k], digest)
  }

  /** Whether the manifest layer at `i` settles the answer. */
  predicate Decides(image: Image, opts: Options, i: int)
    requires 0 <= i < |image.manifest|
  {
    var m := image.manifest[i];
    !Complete(m) ||
    (Matches(m, opts) &&
     (image.layers.None? || i < |image.layers.value| || !NeverEnds(image.layers.value, m.digest)))
  }

  function Missing(m: ManifestLayer, i: nat): Error {
    if KIND !in m.annotations then KindMissing(i)
    else if NAME !in m.annotations then NameMissing(i)
    else ApiVersionMissing(i)
  }

  /** The three annotations of a complete manifest layer. */
  function Described(m: ManifestLayer): map<string, string>
    requires Complete(m)
  {
    map[KIND := m.annotations[KIND], NAME := m.annotations[NAME], API_VERSION := m.annotations[API_VERSION]]
  }

  function FromTar(l: ImageLayer, m: ManifestLayer): Result<Entry>
    requires Complete(m)
  {
    if l.content.None? then Err(NotDecompressible)
    else if l.content.value.tar.None? then Err(NoTarHeader)
    else
      var file := l.content.value.tar.value;
      if file.error == OtherError then Err(InvalidTar)
      else if |file.received| != file.size then Err(SizeMismatch(file.size, |file.received|))
      else Ok(Entry(file.received, Some(Described(m))))
  }

  function FromRaw(l: ImageLayer): Result<Entry> {
    if l.content.None? then Err(NotDecompressible)
    else if l.content.value.raw.None? then Err(ContentUnreadable)
    else Ok(Entry(l.content.value.raw.value, None))
  }

  /** The answer a deciding manifest layer gives. */
  ghost predicate Answers(image: Image, opts: Options, i: int, r: Result<Entry>)
    requires 0 <= i < |image.manifest| && Decides(image, opts, i)
  {
    var m := image.manifest[i];
    if !Complete(m) then r == Err(Missing(m, i))
    else if image.layers.None? then r == Err(LayersUnreadable)
    else
      var layers := image.layers.value;
      if NeverEnds(layers, m.digest) then r == FromRaw(layers[i])
      else exists j :: EndsAt(layers, m.digest, j)
                       && r == if layers[j].digest == None then Err(DigestUnreadable) else FromTar(layers[j], m)
  }

  /** The least deciding manifest layer gives the answer; with none there is no match. */
  ghost predicate IsAnswer(image: Image, opts: Options, r: Result<Entry>) {
    || ((forall i | 0 <= i < |image.manifest| :: !Decides(image, opts, i)) && r == Err(NoMatchingLayer))
    || (exists i | 0 <= i < |image.manifest| ::
          Decides(image, opts, i) && (forall k | 0 <= k < i :: !Decides(image, opts, k)) && Answers(image, opts, i, r))
  }

  // The nested search, as written.

  /** The three annotations under their published names. */
  function Spelled(m: ManifestLayer): map<string, string>
    requires Complete(m)
  {
    map["dev.tekton.image.kind" := m.annotations["dev.tekton.image.kind"],
        "dev.tekton.image.name" := m.annotations["dev.tekton.image.name"],
        "dev.tekton.image.apiVersion" := m.annotations["dev.tekton.image.apiVersion"]]
  }

  method ReadTar(l: ImageLayer, m: ManifestLayer) returns (r: Result<Entry>)
    requires Complete(m)
    requires l.content.Some? && l.content.value.tar.Some? ==>
               |l.content.value.tar.value.received| <= l.content.value.tar.value.size
    ensures r == FromTar(l, m)
    ensures r.Ok? <==> l.content.Some? && l.content.value.tar.Some? &&
                       var file := l.content.value.tar.value;
                       file.error != OtherError && |file.received| == file.size
    ensures r.Ok? ==> r.value.data == l.content.value.tar.value.received
                      && r.value.annotations == Some(Spelled(m))
  {
    if l.content.None? {
      return Err(NotDecompressible);
    }
    if l.content.value.tar.None? {
      return Err(NoTarHeader);
    }
    var header := l.content.value.tar.value;
    var data := new byte[header.size](_ => 0);
    var n := |header.received|;
    for i := 0 to n
      invariant forall k | 0 <= k < i :: data[k] == header.received[k]
    {
      data[i] := header.received[i];
    }
    if header.error != NoError && header.error != EndOfFile {
      return Err(InvalidTar);
    } else if n != header.size {
      return Err(SizeMismatch(header.size, n));
    }
    assert data[..] == header.received;
    r := Ok(Entry(data[..], Some(map[KIND := m.annotations[KIND], NAME := m.annotations[NAME],
                                     API_VERSION := m.annotations[API_VERSION]])));
  }

  method GetEntry(image: Image, opts: Options) returns (r: Result<Entry>)
    requires Readable(image)
    ensures IsAnswer(image, opts, r)
  {
    for idx := 0 to |image.manifest|
      invariant forall k | 0 <= k < idx :: !Decides(image, opts, k)
    {
      var m := image.manifest[idx];
      assert !Complete(m) ==> Decides(image, opts, idx);
      if KIND !in m.annotations {
        return Err(KindMissing(idx));
      }
      if NAME !in m.annotations {
        return Err(NameMissing(idx));
      }
      if API_VERSION !in m.annotations {
        return Err(ApiVersionMissing(idx));
      }
      if m.annotations[KIND] == opts.kind && m.annotations[NAME] == opts.entryName {
        assert Matches(m, opts);
        if image.layers.None? {
          assert Decides(image, opts, idx);
          return Err(LayersUnreadable);
        }
        var layers := image.layers.value;
        for j := 0 to |layers|
          invariant forall k | 0 <= k < j :: !Ends(layers[k], m.digest)
        {
          if layers[j].digest == None {
            assert EndsAt(layers, m.digest, j) && Decides(image, opts, idx);
            return Err(DigestUnreadable);
          }
          if layers[j].digest.value == m.digest {
            assert EndsAt(layers, m.digest, j) && Decides(image, opts, idx);
            r := ReadTar(layers[j], m);
            return;
          }
        }
        if idx < |layers| {
          assert Decides(image, opts, idx);
          return FromRaw(layers[idx]);
        }
      }
    }
    return Err(NoMatchingLayer);
  }

  // What the declarative choice promises.

  /** The image and the request leave no choice: there is exactly one answer. */
  lemma AnswerIsUnique(image: Image, opts: Options, r: Result<Entry>, r': Result<Entry>)
    requires IsAnswer(image, opts, r) && IsAnswer(image, opts, r')
    ensures r == r'
  {
  }

  /** The entry is the whole first file of the tarball in layer `l`. */
  predicate IsWholeTarOf(e: Entry, l: ImageLayer) {
    l.content.Some? && l.content.value.tar.Some? &&
    var file := l.content.value.tar.value;
    e.data == file.received && |e.data| == file.size && file.error != OtherError
  }

  /** The entry is the whole file of layer `l`, listed as `m`, which is of the kind and name asked for. */
  predicate IsEntryOf(e: Entry, m: ManifestLayer, l: ImageLayer, opts: Options) {
    && Complete(m) && Matches(m, opts) && e.annotations == Some(Described(m))
    && l.digest == Some(m.digest) && IsWholeTarOf(e, l)
  }

  ghost predicate IsTarEntry(image: Image, opts: Options, e: Entry) {
    image.layers.Some? &&
    exists m, l :: m in image.manifest && l in image.layers.value && IsEntryOf(e, m, l, opts)
  }

  lemma DigestMatchGivesTarEntry(image: Image, opts: Options, m: ManifestLayer, l: ImageLayer, e: Entry)
    requires m in image.manifest && Complete(m) && Matches(m, opts)
    requires image.layers.Some? && l in image.layers.value && l.digest == Some(m.digest)
    requires FromTar(l, m) == Ok(e)
    ensures IsTarEntry(image, opts, e)
  {
    assert IsEntryOf(e, m, l, opts);
  }

  lemma AnnotatedAnswerIsTarEntry(image: Image, opts: Options, i: int, e: Entry)
    requires 0 <= i < |image.manifest| && Decides(image, opts, i)
    requires Answers(image, opts, i, Ok(e)) && e.annotations.Some?
    ensures IsTarEntry(image, opts, e)
  {
    var m := image.manifest[i];
    assert Complete(m) && image.layers.Some?;
    var layers := image.layers.value;
    var j :| EndsAt(layers, m.digest, j)
             && Ok(e) == if layers[j].digest == None then Err(DigestUnreadable) else FromTar(layers[j], m);
    assert layers[j] in layers && m in image.manifest;
    DigestMatchGivesTarEntry(image, opts, m, layers[j], e);
  }

  /**
   An annotated entry is a whole tarball file of exactly the size its header
   announced, from a layer with the digest of a manifest layer of the kind and
   name asked for, and carries that layer's three annotations.
   */
  lemma EntryIsAsAsked(image: Image, opts: Options, e: Entry)
    requires IsAnswer(image, opts, Ok(e)) && e.annotations.Some?
    ensures IsTarEntry(image, opts, e)
  {
    var i :| 0 <= i < |image.manifest| && Decides(image, opts, i) && Answers(image, opts, i, Ok(e));
    AnnotatedAnswerIsTarEntry(image, opts, i, e);
  }

  /** All three annotations are there, under their published names, and kind and name are those asked for. */
  predicate AskedFor(m: ManifestLayer, opts: Options) {
    && "dev.tekton.image.apiVersion" in m.annotations
    && "dev.tekton.image.kind" in m.annotations && m.annotations["dev.tekton.image.kind"] == opts.kind
    && "dev.tekton.image.name" in m.annotations && m.annotations["dev.tekton.image.name"] == opts.entryName
  }

  /** The first manifest layer asked for, when those before it are complete. */
  predicate FirstAskedFor(image: Image, opts: Options, i: int) {
    && 0 <= i < |image.manifest| && AskedFor(image.manifest[i], opts)
    && forall k | 0 <= k < i :: Complete(image.manifest[k]) && !AskedFor(image.manifest[k], opts)
  }

  lemma FirstAskedForDecides(image: Image, opts: Options, i: int, r: Result<Entry>)
    requires FirstAskedFor(image, opts, i) && Decides(image, opts, i) && Answers(image, opts, i, r)
    ensures forall r' :: IsAnswer(image, opts, r') <==> r' == r
  {
    assert forall k | 0 <= k < i :: !Decides(image, opts, k);
    assert IsAnswer(image, opts, r);
    forall r' | IsAnswer(image, opts, r') ensures r' == r {
      AnswerIsUnique(image, opts, r', r);
    }
  }

  /**
   An entry that is there is found: the first image layer with the digest of
   the first manifest layer asked for gives its whole first file, annotated.
   */
  lemma TarEntryIsFound(image: Image, opts: Options, i: int, j: int, file: TarFile)
    requires FirstAskedFor(image, opts, i) && image.layers.Some? && 0 <= j < |image.layers.value|
    requires forall k | 0 <= k < j :: image.layers.value[k].digest !in {None, Some(image.manifest[i].digest)}
    requires image.layers.value[j].digest == Some(image.manifest[i].digest)
    requires image.layers.value[j].content.Some? && image.layers.value[j].content.value.tar == Some(file)
    requires file.error != OtherError && |file.received| == file.size
    ensures forall r :: IsAnswer(image, opts, r) <==> r == Ok(Entry(file.received, Some(Spelled(image.manifest[i]))))
  {
    var layers, m := image.layers.value, image.manifest[i];
    assert EndsAt(layers, m.digest, j);
    assert Matches(m, opts) && Ends(layers[j], m.digest);
    FirstAskedForDecides(image, opts, i, FromTar(layers[j], m));
  }

  /** With no such digest, the layer at the manifest layer's own index gives its raw content, without annotations. */
  lemma RawEntryIsFound(image: Image, opts: Options, i: int, content: Bytes)
    requires FirstAskedFor(image, opts, i) && image.layers.Some? && i < |image.layers.value|
    requires forall k | 0 <= k < |image.layers.value| ::
               image.layers.value[k].digest !in {None, Some(image.manifest[i].digest)}
    requires image.layers.value[i].content.Some? && image.layers.value[i].content.value.raw == Some(content)
    ensures forall r :: IsAnswer(image, opts, r) <==> r == Ok(Entry(content, None))
  {
    assert Matches(image.manifest[i], opts);
    FirstAskedForDecides(image, opts, i, FromRaw(image.layers.value[i]));
  }

  /** The layer at the index of a manifest layer asked for, none having its digest, has that raw content. */
  ghost predicate IsRawEntry(image: Image, opts: Options, e: Entry, i: int) {
    && 0 <= i < |image.manifest| && AskedFor(image.manifest[i], opts)
    && image.layers.Some? && i < |image.layers.value|
    && (forall l | l in image.layers.value :: l.digest !in {None, Some(image.manifest[i].digest)})
    && image.layers.value[i].content.Some? && image.layers.value[i].content.value.raw == Some(e.data)
  }

  lemma PlainAnswerIsRawEntry(image: Image, opts: Options, i: int, e: Entry)
    requires 0 <= i < |image.manifest| && Decides(image, opts, i)
    requires Answers(image, opts, i, Ok(e)) && e.annotations.None?
    ensures IsRawEntry(image, opts, e, i)
  {
    var m := image.manifest[i];
    assert Complete(m) && image.layers.Some?;
    var layers := image.layers.value;
    assert NeverEnds(layers, m.digest);
    forall l | l in layers ensures l.digest !in {None, Some(m.digest)} {
      var k :| 0 <= k < |layers| && layers[k] == l;
      assert !Ends(layers[k], m.digest);
    }
  }

  /** And every entry without annotations is such a layer's raw content. */
  lemma RawEntryIsAsAsked(image: Image, opts: Options, e: Entry) returns (i: int)
    requires IsAnswer(image, opts, Ok(e)) && e.annotations.None?
    ensures IsRawEntry(image, opts, e, i)
  {
    i :| 0 <= i < |image.manifest| && Decides(image, opts, i) && Answers(image, opts, i, Ok(e));
    PlainAnswerIsRawEntry(image, opts, i, e);
  }

  /** "No matching image layer" means just that. */
  lemma NoMatchIff(image: Image, opts: Options)
    ensures IsAnswer(image, opts, Err(NoMatchingLayer)) <==>
            forall i | 0 <= i < |image.manifest| ::
              && Complete(image.manifest[i])
              && (AskedFor(image.manifest[i], opts) ==>
                    && image.layers.Some? && |image.layers.value| <= i
                    && forall l | l in image.layers.value :: l.digest !in {None, Some(image.manifest[i].digest)})
  {
    forall i | 0 <= i < |image.manifest|
      ensures Decides(image, opts, i) <==>
              !(Complete(image.manifest[i])
                && (AskedFor(image.manifest[i], opts) ==>
                      && image.layers.Some? && |image.layers.value| <= i
                      && forall l | l in image.layers.value :: l.digest !in {None, Some(image.manifest[i].digest)}))
    {
      DecidesUnlessMissing(image, opts, i);
    }
    forall i | 0 <= i < |image.manifest| && Decides(image, opts, i)
      ensures !Answers(image, opts, i, Err(NoMatchingLayer))
    {
    }
  }

  lemma DecidesUnlessMissing(image: Image, opts: Options, i: int)
    requires 0 <= i < |image.manifest|
    ensures Decides(image, opts, i) <==>
            !(Complete(image.manifest[i])
              && (AskedFor(image.manifest[i], opts) ==>
                    && image.layers.Some? && |image.layers.value| <= i
                    && forall l | l in image.layers.value :: l.digest !in {None, Some(image.manifest[i].digest)}))
  {
    var m := image.manifest[i];
    if Complete(m) && image.layers.Some? {
      var layers := image.layers.value;
      if NeverEnds(layers, m.digest) {
        forall l | l in layers ensures l.digest !in {None, Some(m.digest)} {
          var k :| 0 <= k < |layers| && layers[k] == l;
          assert !Ends(layers[k], m.digest);
        }
      } else {
        var k :| 0 <= k < |layers| && Ends(layers[k], m.digest);
        assert layers[k] in layers;
      }
    }
  }

  /** What each error says of the manifest layer that it names. */
  lemma MissingAnnotationIsNamed(image: Image, opts: Options, i: nat)
    ensures IsAnswer(image, opts, Err(KindMissing(i))) ==>
              i < |image.manifest| && "dev.tekton.image.kind" !in image.manifest[i].annotations
    ensures IsAnswer(image, opts, Err(NameMissing(i))) ==>
              i < |image.manifest| && "dev.tekton.image.name" !in image.manifest[i].annotations
              && "dev.tekton.image.kind" in image.manifest[i].annotations
    ensures IsAnswer(image, opts, Err(ApiVersionMissing(i))) ==>
              i < |image.manifest| && "dev.tekton.image.apiVersion" !in image.manifest[i].annotations
              && "dev.tekton.image.kind" in image.manifest[i].annotations
              && "dev.tekton.image.name" in image.manifest[i].annotations
  {
  }

  /** Whatever its bundles hold, the bundle resolver's results are never mixed. */
  lemma BundleResultsNeverTear()
    ensures NeverTears(iset image, opts, e: Entry | IsAnswer(image, opts, Ok(e)) :: Resource(e.data, e.annotations))
  {
    var returned := iset image, opts, e: Entry | IsAnswer(image, opts, Ok(e)) :: Resource(e.data, e.annotations);
    forall r | r in returned && r.annotations.Some? ensures r.annotations.value.Keys == {KIND, NAME, API_VERSION} {
      var image, opts, e: Entry :| IsAnswer(image, opts, Ok(e)) && r == Resource(e.data, e.annotations);
      EntryIsAsAsked(image, opts, e);
      var m :| m in image.manifest && Complete(m) && e.annotations == Some(Described(m));
    }
    UniformKeysNeverTear(returned, {KIND, NAME, API_VERSION});
  }
}

/** What the git resolver returns: gitresolver/pkg/git/resolver.go. */
module GitResults {
  import opened Common
  import opened Lifecycle
  import opened Base64
  import opened Protocol
  import opened Tearing

  function GitAnnotations(commit: string): map<string, string> {
    map["commit" := commit, "content-type" := "application/x-yaml"]
  }

  function GitResource(commit: string, content: Bytes): Resource {
    Resource(content, Some(GitAnnotations(commit)))
  }

  ghost function GitResources(): iset<Resource> {
    iset commit, content :: GitResource(commit, content)
  }

  lemma GitKeysAreUniform()
    ensures UniformKeys(GitResources(), {"commit", "content-type"})
  {
  }

  /** Two clones of a moving branch never mix one commit's file with the other's hash. */
  lemma GitResultsNeverTear()
    ensures NeverTears(GitResources())
  {
    GitKeysAreUniform();
    UniformKeysNeverTear(GitResources(), {"commit", "content-type"});
  }

  /** Content and commit hash as one of the calls made returned them. */
  ghost predicate FromOneClone(made: set<Resource>, s: Status) {
    exists commit, content ::
      GitResource(commit, content) in made && s.data == Encode(content) && s.annotations == GitAnnotations(commit)
  }

  lemma WholeIsFromOneClone(made: set<Resource>, s: Status)
    requires Whole(made, s) && s.data != "" && forall r | r in made :: r in GitResources()
    ensures FromOneClone(made, s)
  {
    var r :| r in made && From(r, s.data, s.annotations);
    var commit, content :| r == GitResource(commit, content);
    assert Merge(map[], r.annotations) == GitAnnotations(commit);
  }

  /** Stored content always stands beside the hash of the commit it was read at, in one call of the run. */
  lemma CommitMatchesContent(born: int, steps: seq<Step>, v: nat)
    requires ReturnsOnly(GitResources(), steps) && v < |Exec(Create(born), steps).versions|
    ensures var w := Exec(Create(born), steps);
            w.versions[v].data != "" ==> FromOneClone(w.results, w.versions[v])
  {
    GitResultsNeverTear();
    NeverTearsIffCompatible(GitResources());
    RunStaysUntorn(GitResources(), born, steps);
    var w := Exec(Create(born), steps);
    assert Whole(w.results, w.versions[v]);
    if w.versions[v].data != "" {
      WholeIsFromOneClone(w.results, w.versions[v]);
    }
  }
}
