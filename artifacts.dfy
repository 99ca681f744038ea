/** The `.joblib` files the training scripts read and write: what they hold,
    the existence-checked cache the scripts keep their text transform in,
    and how saved models are named. */
module Artifacts {
  import opened Util
  import opened GridSearch
  import opened Dataset

  /** A text transform: a TF-IDF vectorizer (its options, and the rows whose
      summaries it was fitted on if it was fitted) or a column transformer routing named
      columns through inner transforms. */
  datatype Transform =
    | TfidfVectorizer(maxFeatures: Option<nat>, stopWords: Option<string>, fittedOn: Option<seq<Example>>)
    | ColumnTransformer(transformers: seq<(string, Transform, string)>, remainder: string)

  /** What a file holds: a transform, or a fitted pipeline made of the
      transform it was built around, an estimator family, the chosen
      hyperparameters and the labelled rows it was fitted on. */
  datatype Artifact =
    | TransformArtifact(transform: Transform)
    | PipelineArtifact(first: Artifact, family: string, params: Config, trainedOn: seq<Example>)

  /** The files and the artifact after an existence-checked load of `path`
      that would otherwise build `build` (None when building raises) and
      write it. */
  function Cached(files: map<string, Artifact>, path: string, build: Option<Artifact>)
    : (map<string, Artifact>, Option<Artifact>)
  {
    if path in files then (files, Some(files[path]))
    else if build.None? then (files, None)
    else (files[path := build.value], build)
  }

  /** The directory the scripts write into: file paths to file contents. */
  class ArtifactStore {
    var files: map<string, Artifact>

    constructor (initial: map<string, Artifact>)
      ensures files == initial
    {
      files := initial;
    }

    /** `if os.path.isfile(path): joblib.load(path) else: build, dump, return`.
        An existing file wins whatever `build` is, and nothing is written; a
        build that raises (None) writes nothing either. */
    method GetOrBuild(path: string, build: Option<Artifact>) returns (a: Option<Artifact>)
      modifies this
      ensures path in old(files) ==> a == Some(old(files)[path]) && files == old(files)
      ensures path !in old(files) ==> a == build
      ensures path !in old(files) && build.Some? ==> files == old(files)[path := build.value]
      ensures path !in old(files) && build.None? ==> files == old(files)
      ensures (files, a) == Cached(old(files), path, build)
    {
      if path in files {
        a := Some(files[path]);
      } else {
        a := build;
        if build.Some? {
          files := files[path := build.value];
        }
      }
    }

    /** `joblib.dump(a, path)`: writes, replacing any file of that name. */
    method Save(path: string, a: Artifact)
      modifies this
      ensures files == old(files)[path := a]
    {
      files := files[path := a];
    }
  }

  /** Two training sessions, one after the other, asking for the same cached
      transform with different builds: the first gets the artifact already
      on disk or else its own build, and once it got one the second gets
      the same. */
  method RepeatedSessions(initial: map<string, Artifact>, path: string, first: Option<Artifact>,
                          second: Option<Artifact>)
    returns (a1: Option<Artifact>, a2: Option<Artifact>)
    ensures a1 == if path in initial then Some(initial[path]) else first
    ensures a1.Some? ==> a2 == a1
    ensures a1.None? ==> a2 == second
  {
    var store := new ArtifactStore(initial);
    a1 := store.GetOrBuild(path, first);
    a2 := store.GetOrBuild(path, second);
  }

  /** `f"{accuracy:.2f}"` for an accuracy already rounded to hundredths. */
  function RenderAccuracy(hundredths: nat): string {
    NatToString(hundredths / 100) + "." + Padded(hundredths % 100, 2)
  }

  /** `f"{name}_accuracy_{accuracy:.2f}.joblib"`. */
  function ModelFilename(name: string, hundredths: nat): string {
    name + "_accuracy_" + RenderAccuracy(hundredths) + ".joblib"
  }

  /** Reading a model filename back into its name and accuracy. */
  function ParseModelFilename(f: string): Option<(string, nat)> {
    var n := |f|;
    if n < 21 then None
    else
      var name, tag, acc, ext := f[..n - 21], f[n - 21..n - 11], f[n - 11..n - 7], f[n - 7..];
      if tag == "_accuracy_" && ext == ".joblib" && IsDigit(acc[0]) && acc[1] == '.'
         && AllDigits(acc[2..]) then
        Some((name, 100 * DigitValue(acc[0]) + DigitsValue(acc[2..])))
      else None
  }

  lemma RenderShape(h: nat)
    requires h <= 100
    ensures var r := RenderAccuracy(h);
      |r| == 4 && IsDigit(r[0]) && r[1] == '.' && AllDigits(r[2..])
      && 100 * DigitValue(r[0]) + DigitsValue(r[2..]) == h
  {
    var r := RenderAccuracy(h);
    PaddedShape(h % 100, 2);
    PaddedValue(h % 100, 2);
    assert r[2..] == Padded(h % 100, 2);
  }

  /** A model's filename gives back its name and accuracy: the accuracy is
      the fixed-width tail, so any name, even one with underscores or with
      "_accuracy_" in it, is recovered. */
  lemma FilenameRoundTrip(name: string, h: nat)
    requires h <= 100
    ensures ParseModelFilename(ModelFilename(name, h)) == Some((name, h))
  {
    var f := ModelFilename(name, h);
    var r := RenderAccuracy(h);
    RenderShape(h);
    var n := |f|;
    assert f[..n - 21] == name;
    assert f[n - 21..n - 11] == "_accuracy_";
    assert f[n - 11..n - 7] == r;
    assert f[n - 7..] == ".joblib";
  }

  /** Two saves get the same file exactly when name and rounded accuracy both
      agree; then the second overwrites the first. */
  lemma FilenameIdentity(n1: string, h1: nat, n2: string, h2: nat)
    requires h1 <= 100 && h2 <= 100
    ensures ModelFilename(n1, h1) == ModelFilename(n2, h2) <==> n1 == n2 && h1 == h2
  {
    FilenameRoundTrip(n1, h1);
    FilenameRoundTrip(n2, h2);
  }

  /** `os.path.join(a, b)` for two components: the joined path ends with
      the last component. */
  function JoinPath(a: string, b: string): (r: string)
    ensures |r| >= |b|
  {
    if |b| > 0 && b[0] == '/' then b
    else if a == [] || a[|a| - 1] == '/' then a + b
    else a + "/" + b
  }

  /** The joined path ends with the last component: its `i`-th character
      counted from where that component starts is the component's. */
  lemma JoinPathEnds(a: string, b: string, i: nat)
    requires i < |b|
    ensures var r := JoinPath(a, b); r[|r| - |b| + i] == b[i]
  {
    if !(|b| > 0 && b[0] == '/') && !(a == [] || a[|a| - 1] == '/') {
      assert JoinPath(a, b) == (a + "/") + b;
    }
  }

  /** Paths joined onto the same directory differ when their last
      components differ at the same distance from the end. */
  lemma JoinPathDistinct(dir: string, a: string, b: string, k: nat)
    requires 0 < k <= |a| && k <= |b| && a[|a| - k] != b[|b| - k]
    ensures JoinPath(dir, a) != JoinPath(dir, b)
  {
    JoinPathEnds(dir, a, |a| - k);
    JoinPathEnds(dir, b, |b| - k);
  }

  /** A model filename is 21 characters longer than the name, and those
      characters start with the `_` of `_accuracy_`. */
  lemma ModelFilenameShape(name: string, h: nat)
    requires h <= 100
    ensures var f := ModelFilename(name, h); |f| == |name| + 21 && f[|name|] == '_'
  {
    RenderShape(h);
  }

  function LowerChar(c: char): char {
    if 'A' <= c <= 'Z' then ((c as int) + 32) as char else c
  }

  /** `name.lower().replace(' ', '_')`. */
  function NormalizeName(name: string): (r: string)
    decreases |name|
  {
    if name == [] then []
    else [if name[0] == ' ' then '_' else LowerChar(name[0])] + NormalizeName(name[1..])
  }

  /** Normalising keeps the length, turns every space into an underscore and
      every capital into its small letter, and leaves everything else as it
      was; the result has no space and no capital. */
  lemma {:induction false} NormalizeNameChars(name: string)
    ensures var r := NormalizeName(name);
      && |r| == |name|
      && (forall i :: 0 <= i < |name| ==>
            r[i] == (if name[i] == ' ' then '_'
                     else if 'A' <= name[i] <= 'Z' then ((name[i] as int) + 32) as char
                     else name[i]))
      && (forall i :: 0 <= i < |r| ==> r[i] != ' ' && !('A' <= r[i] <= 'Z'))
    decreases |name|
  {
    if name != [] {
      NormalizeNameChars(name[1..]);
      var r := NormalizeName(name);
      assert forall i :: 1 <= i < |name| ==> r[i] == NormalizeName(name[1..])[i - 1];
    }
  }

  /** Normalising a normalised name changes nothing. */
  lemma {:induction false} NormalizeNameIdempotent(name: string)
    ensures NormalizeName(NormalizeName(name)) == NormalizeName(name)
    decreases |name|
  {
    if name != [] {
      NormalizeNameIdempotent(name[1..]);
      var r := NormalizeName(name);
      assert r[1..] == NormalizeName(name[1..]);
    }
  }
}
