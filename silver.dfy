/**
  The silver job's publish protocol: strip the engine's completion markers
  from the local output, delete everything under the destination prefix, and
  only when that batch delete reports no error upload every local file to
  `prefix + relative path`. The resolver runs first and decides which bronze
  snapshot the local output was made from.
*/
module Silver {
  import opened Text
  import opened Wrappers
  import opened Store
  import Resolver

  /** The bucket both layers live in (the default of `DL_BUCKET`). */
  const Bucket: string := "datalake"
  const SilverPrefix: string := "silver/ibge_uf/"

  /** A path relative to the local output directory, as `os.path.relpath` writes it. */
  type Path = string

  /** The completion markers the engine leaves in its output. */
  const Markers: seq<Path> := ["_SUCCESS", "._SUCCESS"]

  type Objects = map<ObjectKey, StoredObject>

  /** No path occurs twice. */
  predicate Distinct(s: seq<Path>) {
    forall i, j :: 0 <= i < j < |s| ==> s[i] != s[j]
  }

  /** `s` without the paths in `gone`, order kept. */
  function Keep(s: seq<Path>, gone: set<Path>): (r: seq<Path>)
    ensures forall y :: y in r <==> y in s && y !in gone
    ensures Distinct(s) ==> Distinct(r)
  {
    if s == [] then [] else
      var r := Keep(s[..|s| - 1], gone);
      assert forall y :: y in s <==> y in s[..|s| - 1] || y == s[|s| - 1];
      if s[|s| - 1] in gone then r else r + [s[|s| - 1]]
  }

  /** Dropping `a` and then `b` drops `a + b`. */
  lemma {:induction false} KeepTwice(s: seq<Path>, a: set<Path>, b: set<Path>)
    ensures Keep(Keep(s, a), b) == Keep(s, a + b)
  {
    if s != [] {
      var init := s[..|s| - 1];
      KeepTwice(init, a, b);
      if s[|s| - 1] !in a {
        assert Keep(s, a) == Keep(init, a) + [s[|s| - 1]];
        assert Keep(s, a)[..|Keep(s, a)| - 1] == Keep(init, a);
      }
    }
  }

  /** Dropping paths that do not occur changes nothing. */
  lemma {:induction false} KeepAbsent(s: seq<Path>, gone: set<Path>)
    requires forall y :: y in gone ==> y !in s
    ensures Keep(s, gone) == s
  {
    if s != [] {
      var init := s[..|s| - 1];
      assert forall y :: y in gone ==> y !in init;
      KeepAbsent(init, gone);
      assert s == init + [s[|s| - 1]];
    }
  }

  /**
    The local output directory: the files it holds by relative path, and the
    order in which `os.walk` visits them.
  */
  class LocalDir {
    var files: map<Path, Bytes>
    var walk: seq<Path>

    ghost predicate Valid()
      reads this
    {
      Distinct(walk) && forall p :: p in files <==> p in walk
    }

    constructor (files: map<Path, Bytes>, walk: seq<Path>)
      requires Distinct(walk) && forall p :: p in files <==> p in walk
      ensures Valid() && this.files == files && this.walk == walk
    {
      this.files, this.walk := files, walk;
    }

    /** Deletes the top-level file `m` when it exists. */
    method RemoveIfExists(m: Path)
      requires Valid()
      modifies this
      ensures Valid()
      ensures files == old(files) - {m} && walk == Keep(old(walk), {m})
    {
      if m in files {
        files, walk := files - {m}, Keep(walk, {m});
      } else {
        KeepAbsent(walk, {m});
      }
    }

    /** Deletes each marker file that exists; every other file stays, in its walk position. */
    method RemoveMarkers()
      requires Valid()
      modifies this
      ensures Valid()
      ensures files == old(files) - {"_SUCCESS", "._SUCCESS"}
      ensures walk == Keep(old(walk), {"_SUCCESS", "._SUCCESS"})
    {
      ghost var files0, walk0 := files, walk;
      assert files0 - {} == files0;
      for i := 0 to |Markers|
        invariant Valid()
        invariant files == files0 - Elems(Markers[..i])
        invariant walk == KeepEach(walk0, Markers[..i])
      {
        var m := Markers[i];
        assert Markers[..i + 1][..i] == Markers[..i];
        MinusTwice(files0, Elems(Markers[..i]), m);
        RemoveIfExists(m);
      }
      assert Markers[..|Markers|] == Markers;
      KeepMarkers(walk0);
    }
  }

  /** `s` without each path of `ms`, dropped one after the other. */
  function KeepEach(s: seq<Path>, ms: seq<Path>): seq<Path> {
    if ms == [] then s else Keep(KeepEach(s, ms[..|ms| - 1]), {ms[|ms| - 1]})
  }

  lemma KeepMarkers(s: seq<Path>)
    ensures KeepEach(s, Markers) == Keep(s, {"_SUCCESS", "._SUCCESS"})
    ensures Elems(Markers) == {"_SUCCESS", "._SUCCESS"}
  {
    assert Markers[..1] == ["_SUCCESS"] && Markers[..1][..0] == [];
    assert KeepEach(s, Markers[..1]) == Keep(s, {"_SUCCESS"});
    assert KeepEach(s, Markers) == Keep(Keep(s, {"_SUCCESS"}), {"._SUCCESS"});
    KeepTwice(s, {"_SUCCESS"}, {"._SUCCESS"});
    assert {"_SUCCESS"} + {"._SUCCESS"} == {"_SUCCESS", "._SUCCESS"};
  }

  /** The paths of `ms`, as a set. */
  function Elems(ms: seq<Path>): set<Path> {
    if ms == [] then {} else Elems(ms[..|ms| - 1]) + {ms[|ms| - 1]}
  }

  lemma MinusTwice(m: map<Path, Bytes>, a: set<Path>, x: Path)
    ensures (m - a) - {x} == m - (a + {x})
  {
  }

  /** The object name a local file is uploaded to: `f"{dest_prefix}{rel}"`, backslashes as slashes. */
  function KeyFor(dest: string, rel: Path): string {
    dest + Slashes(rel)
  }

  /** Every upload key lies under the destination prefix and uses `/` as its only separator. */
  lemma KeyForShape(dest: string, rel: Path)
    ensures HasPrefix(KeyFor(dest, rel), dest)
    ensures KeyFor(dest, rel)[|dest|..] == Slashes(rel) && '\\' !in KeyFor(dest, rel)[|dest|..]
    ensures '\\' !in rel ==> KeyFor(dest, rel) == dest + rel
  {
    assert KeyFor(dest, rel)[..|dest|] == dest;
    assert KeyFor(dest, rel)[|dest|..] == Slashes(rel);
    SlashesNormalises(rel);
  }

  /** The keys the walked files are uploaded to. */
  function KeysOf(walk: seq<Path>, dest: string): set<string> {
    set r | r in walk :: KeyFor(dest, r)
  }

  /** Every walked path names a local file. */
  predicate InFiles(walk: seq<Path>, files: map<Path, Bytes>) {
    forall i :: 0 <= i < |walk| ==> walk[i] in files
  }

  /**
    The objects after putting the walked files, in walk order, under `dest`:
    a later file mapped to the same key overwrites an earlier one.
  */
  function Uploaded(objects: Objects, dest: string, files: map<Path, Bytes>, walk: seq<Path>): Objects
    requires InFiles(walk, files)
  {
    if walk == [] then objects
    else
      var rel := walk[|walk| - 1];
      Uploaded(objects, dest, files, walk[..|walk| - 1])[ObjectKey(Bucket, KeyFor(dest, rel)) := StoredObject(files[rel], OctetStream)]
  }

  /** The put calls uploading the walked files makes, in walk order. */
  function PutCalls(dest: string, files: map<Path, Bytes>, walk: seq<Path>): seq<Call>
    requires InFiles(walk, files)
  {
    if walk == [] then []
    else
      var rel := walk[|walk| - 1];
      PutCalls(dest, files, walk[..|walk| - 1]) + [PutObject(ObjectKey(Bucket, KeyFor(dest, rel)), |files[rel]|, OctetStream)]
  }

  /** An upload adds exactly the walked files' keys and leaves every other object as it was. */
  lemma {:induction false} UploadedFrame(objects: Objects, dest: string, files: map<Path, Bytes>, walk: seq<Path>)
    requires InFiles(walk, files)
    ensures forall k :: k in Uploaded(objects, dest, files, walk) <==>
                          k in objects || (k.bucket == Bucket && k.name in KeysOf(walk, dest))
    ensures forall k :: k in objects && !(k.bucket == Bucket && k.name in KeysOf(walk, dest)) ==>
                          Uploaded(objects, dest, files, walk)[k] == objects[k]
  {
    if walk != [] {
      var init := walk[..|walk| - 1];
      UploadedFrame(objects, dest, files, init);
      assert walk == init + [walk[|walk| - 1]];
      assert KeysOf(walk, dest) == KeysOf(init, dest) + {KeyFor(dest, walk[|walk| - 1])};
    }
  }

  /** The objects one upload can leave at `key`: one per local file mapped to that key. */
  function Candidates(files: map<Path, Bytes>, dest: string, key: string): set<StoredObject> {
    set r | r in files && KeyFor(dest, r) == key :: StoredObject(files[r], OctetStream)
  }

  /** No two local files are mapped to the same key. */
  predicate DistinctKeys(files: map<Path, Bytes>, dest: string) {
    forall r1, r2 :: r1 in files && r2 in files && KeyFor(dest, r1) == KeyFor(dest, r2) ==> r1 == r2
  }

  /**
    After an upload each walked file's key holds one of the files mapped to
    it, and exactly that file when no two files share a key.
  */
  lemma {:induction false} UploadedContent(objects: Objects, dest: string, files: map<Path, Bytes>, walk: seq<Path>)
    requires InFiles(walk, files)
    ensures forall i :: 0 <= i < |walk| ==>
              && ObjectKey(Bucket, KeyFor(dest, walk[i])) in Uploaded(objects, dest, files, walk)
              && Uploaded(objects, dest, files, walk)[ObjectKey(Bucket, KeyFor(dest, walk[i]))]
                 in Candidates(files, dest, KeyFor(dest, walk[i]))
    ensures DistinctKeys(files, dest) ==>
              forall i :: 0 <= i < |walk| ==>
                Uploaded(objects, dest, files, walk)[ObjectKey(Bucket, KeyFor(dest, walk[i]))]
                == StoredObject(files[walk[i]], OctetStream)
  {
    if walk != [] {
      var init := walk[..|walk| - 1];
      var last := walk[|walk| - 1];
      UploadedContent(objects, dest, files, init);
      assert StoredObject(files[last], OctetStream) in Candidates(files, dest, KeyFor(dest, last));
      forall i | 0 <= i < |walk| - 1 ensures walk[i] == init[i] { }
    }
  }

  /** The store with every object under the prefix deleted. */
  function Cleared(objects: Objects, bucket: string, prefix: string): (r: Objects)
  {
    map k | k in objects && !Under(k, bucket, prefix) :: objects[k]
  }

  /** Nothing outside the prefix was added, removed or changed. */
  ghost predicate OutsideUnchanged(before: Objects, after: Objects, bucket: string, prefix: string)
  {
    forall k :: !Under(k, bucket, prefix) ==>
      (k in after <==> k in before) && (k in before ==> after[k] == before[k])
  }

  /** The names under the prefix that the store refuses to delete. */
  function Undeletable(store: ObjectStore, prefix: string): set<string>
    reads store
  {
    set n | n in NamesUnder(store.objects, Bucket, prefix) && ObjectKey(Bucket, n) in store.deleteRefused
  }

  /** Whether a recursive listing of the silver bucket succeeds. */
  predicate Listable(store: ObjectStore)
    reads store
  {
    store.online && !store.listFails && Bucket in store.buckets
  }

  datatype SilverError =
    | NotConnected                              // the store's sanity check failed
    | Unresolved(cause: Resolver.ResolveError)  // no snapshot to publish
    | ListFailed                                // the listing of the prefix raised
    | DeleteFailed(names: set<string>)          // the clear phase reported these names
    | UploadFailed(key: string)                 // a put failed after a successful clear

  /**
    `remove_prefix`: list the prefix recursively and batch-delete what was
    listed; a listing that fails raises before any delete,
    and any name the delete reports raises after it.
  */
  method RemovePrefix(store: ObjectStore, prefix: string) returns (r: Result<(), SilverError>)
    requires store.Valid()
    modifies store
    ensures store.Valid() && store.buckets == old(store.buckets)
    ensures r == Failure(ListFailed) <==> !Listable(store)
    ensures !Listable(store) ==>
              store.objects == old(store.objects) && store.log == old(store.log) + [Call.ListObjects(Bucket, prefix)]
    ensures Listable(store) ==>
              store.log == old(store.log) + [Call.ListObjects(Bucket, prefix),
                                             Call.RemoveObjects(Bucket, NamesUnder(old(store.objects), Bucket, prefix))]
    ensures r.Success? <==> Listable(store) && old(Undeletable(store, prefix)) == {}
    ensures r.Success? ==> store.objects == Cleared(old(store.objects), Bucket, prefix)
    ensures r.Failure? && !r.error.ListFailed? ==>
              && r.error == DeleteFailed(old(Undeletable(store, prefix)))
              && NamesUnder(store.objects, Bucket, prefix) == r.error.names
              && (forall k :: k in store.objects ==> k in old(store.objects) && store.objects[k] == old(store.objects)[k])
    ensures OutsideUnchanged(old(store.objects), store.objects, Bucket, prefix)
  {
    ghost var before := store.objects;
    ghost var undeletable := Undeletable(store, prefix);
    var listed, names := store.ListObjects(Bucket, prefix);
    if !listed {
      return Failure(ListFailed);
    }
    var errors := store.RemoveObjects(Bucket, names);
    assert errors == undeletable;
    if errors != {} {
      assert NamesUnder(store.objects, Bucket, prefix) == errors by {
        forall n ensures n in NamesUnder(store.objects, Bucket, prefix) <==> n in errors {
          if n in errors {
            assert ObjectKey(Bucket, n) in before;
          }
        }
      }
      return Failure(DeleteFailed(errors));
    }
    return Success(());
  }

  /** Every call that puts an object comes after every call that deletes. */
  predicate ClearBeforeUpload(calls: seq<Call>) {
    forall i, j :: 0 <= i < j < |calls| && calls[i].PutObject? ==> !calls[j].RemoveObjects?
  }

  /** An upload's calls are puts only. */
  lemma {:induction false} PutCallsArePuts(dest: string, files: map<Path, Bytes>, walk: seq<Path>)
    requires InFiles(walk, files)
    ensures |PutCalls(dest, files, walk)| == |walk|
    ensures forall i :: 0 <= i < |walk| ==>
              PutCalls(dest, files, walk)[i] == PutObject(ObjectKey(Bucket, KeyFor(dest, walk[i])), |files[walk[i]]|, OctetStream)
  {
    if walk != [] {
      var init := walk[..|walk| - 1];
      PutCallsArePuts(dest, files, init);
      forall i | 0 <= i < |walk| - 1 ensures walk[i] == init[i] { }
    }
  }

  /** The calls of a publish: the sanity check, the listing, one batch delete, then the puts. */
  lemma PublishCallsClearBeforeUpload(names: set<string>, dest: string, files: map<Path, Bytes>, walk: seq<Path>)
    requires InFiles(walk, files)
    ensures ClearBeforeUpload([ListBuckets, ListObjects(Bucket, dest), RemoveObjects(Bucket, names)]
                              + PutCalls(dest, files, walk))
  {
    PutCallsArePuts(dest, files, walk);
  }

  /**
    `upload_directory`: put every local file at its key, in walk order,
    stopping at the first put that fails; that put is the last call made.
  */
  method UploadDirectory(store: ObjectStore, local: LocalDir, dest: string) returns (r: Result<(), SilverError>)
    requires store.Valid() && InFiles(local.walk, local.files)
    modifies store
    ensures store.Valid() && store.buckets == old(store.buckets)
    ensures r.Success? <==> forall i :: 0 <= i < |local.walk| ==> store.Accepts(ObjectKey(Bucket, KeyFor(dest, local.walk[i])))
    ensures r.Success? ==>
              && store.objects == Uploaded(old(store.objects), dest, local.files, local.walk)
              && store.log == old(store.log) + PutCalls(dest, local.files, local.walk)
    ensures r.Failure? ==>
              exists n :: 0 <= n < |local.walk| && StoppedAt(old(store.objects), old(store.log), store, local, dest, n, r)
  {
    var files, walk := local.files, local.walk;
    var i := 0;
    while i < |walk|
      invariant 0 <= i <= |walk|
      invariant store.Valid() && store.buckets == old(store.buckets)
      invariant store.objects == Uploaded(old(store.objects), dest, files, walk[..i])
      invariant store.log == old(store.log) + PutCalls(dest, files, walk[..i])
      invariant forall j :: 0 <= j < i ==> store.Accepts(ObjectKey(Bucket, KeyFor(dest, walk[j])))
    {
      var rel := walk[i];
      var key := KeyFor(dest, rel);
      var ok := store.FPutObject(Bucket, key, files[rel]);
      assert walk[..i + 1][..i] == walk[..i];
      if !ok {
        r := Failure(UploadFailed(key));
        assert StoppedAt(old(store.objects), old(store.log), store, local, dest, i, r);
        return;
      }
      i := i + 1;
    }
    assert walk[..i] == walk;
    return Success(());
  }

  /**
    The state an upload leaves when its put of the `n`-th walked file fails:
    the files before it were uploaded and accepted, that one was refused,
    and its put was the last call.
  */
  ghost predicate StoppedAt(objects: Objects, log: seq<Call>, store: ObjectStore, local: LocalDir, dest: string,
                            n: nat, r: Result<(), SilverError>)
    reads store, local
  {
    && n < |local.walk| && InFiles(local.walk, local.files)
    && r == Failure(UploadFailed(KeyFor(dest, local.walk[n])))
    && !store.Accepts(ObjectKey(Bucket, KeyFor(dest, local.walk[n])))
    && (forall j :: 0 <= j < n ==> store.Accepts(ObjectKey(Bucket, KeyFor(dest, local.walk[j]))))
    && store.objects == Uploaded(objects, dest, local.files, local.walk[..n])
    && store.log == log + PutCalls(dest, local.files, local.walk[..n + 1])
  }

  /**
    Clearing and then uploading every file leaves under the prefix exactly
    the keys of the local files, whatever the prefix held before (for
    instance what a failed earlier run left), and nothing else changes.
  */
  lemma ClearThenUploadConverges(before: Objects, dest: string, files: map<Path, Bytes>, walk: seq<Path>)
    requires InFiles(walk, files)
    ensures NamesUnder(Uploaded(Cleared(before, Bucket, dest), dest, files, walk), Bucket, dest) == KeysOf(walk, dest)
    ensures OutsideUnchanged(before, Uploaded(Cleared(before, Bucket, dest), dest, files, walk), Bucket, dest)
  {
    UploadedFrame(Cleared(before, Bucket, dest), dest, files, walk);
    forall r | r in walk ensures HasPrefix(KeyFor(dest, r), dest) {
      KeyForShape(dest, r);
    }
  }

  /**
    A run whose upload stopped part-way after a successful clear leaves under
    the prefix only keys of the new files: old and new content never mix.
  */
  lemma PartialUploadIsNotMixed(before: Objects, dest: string, files: map<Path, Bytes>, walk: seq<Path>, n: nat)
    requires InFiles(walk, files) && n <= |walk|
    ensures NamesUnder(Uploaded(Cleared(before, Bucket, dest), dest, files, walk[..n]), Bucket, dest) <= KeysOf(walk, dest)
    ensures OutsideUnchanged(before, Uploaded(Cleared(before, Bucket, dest), dest, files, walk[..n]), Bucket, dest)
  {
    assert InFiles(walk[..n], files);
    ClearThenUploadConverges(before, dest, files, walk[..n]);
    forall r | r in walk[..n] ensures r in walk { }
  }

  /** Two stores that hold the same objects under the prefix. */
  ghost predicate AgreeUnder(a: Objects, b: Objects, prefix: string) {
    forall k :: Under(k, Bucket, prefix) ==> (k in a <==> k in b) && (k in a ==> a[k] == b[k])
  }

  /** Uploading the same walk into two stores that agree under the prefix keeps them agreeing there. */
  lemma {:induction false} UploadKeepsAgreement(a: Objects, b: Objects, dest: string, files: map<Path, Bytes>, walk: seq<Path>)
    requires InFiles(walk, files) && AgreeUnder(a, b, dest)
    ensures AgreeUnder(Uploaded(a, dest, files, walk), Uploaded(b, dest, files, walk), dest)
  {
    if walk != [] {
      UploadKeepsAgreement(a, b, dest, files, walk[..|walk| - 1]);
    }
  }

  /** A complete publish: clear the prefix, then upload the walked files. */
  function Published(objects: Objects, dest: string, files: map<Path, Bytes>, walk: seq<Path>): Objects
    requires InFiles(walk, files)
  {
    Uploaded(Cleared(objects, Bucket, dest), dest, files, walk)
  }

  /**
    Publishing the same local output from any two starting stores leaves the
    same objects under the prefix, and publishing twice is publishing once.
  */
  lemma PublishIsIdempotent(b1: Objects, b2: Objects, dest: string, files: map<Path, Bytes>, walk: seq<Path>)
    requires InFiles(walk, files)
    ensures AgreeUnder(Published(b1, dest, files, walk), Published(b2, dest, files, walk), dest)
    ensures Published(Published(b1, dest, files, walk), dest, files, walk) == Published(b1, dest, files, walk)
  {
    UploadKeepsAgreement(Cleared(b1, Bucket, dest), Cleared(b2, Bucket, dest), dest, files, walk);
    var once := Published(b1, dest, files, walk);
    UploadKeepsAgreement(Cleared(b1, Bucket, dest), Cleared(once, Bucket, dest), dest, files, walk);
    ClearThenUploadConverges(once, dest, files, walk);
    SameInsideAndOutside(once, Published(once, dest, files, walk), dest);
  }

  lemma SameInsideAndOutside(a: Objects, b: Objects, prefix: string)
    requires AgreeUnder(a, b, prefix) && OutsideUnchanged(a, b, Bucket, prefix)
    ensures a == b
  {
    assert forall k :: k in a <==> k in b;
  }

  /** Relative paths without backslashes (all of them on POSIX) never share a key. */
  lemma NoBackslashMeansDistinctKeys(files: map<Path, Bytes>, dest: string)
    requires forall r :: r in files ==> '\\' !in r
    ensures DistinctKeys(files, dest)
  {
    forall r1, r2 | r1 in files && r2 in files && KeyFor(dest, r1) == KeyFor(dest, r2) ensures r1 == r2 {
      KeyForShape(dest, r1);
      KeyForShape(dest, r2);
    }
  }

  /** After the marker step no upload key names a marker. */
  lemma MarkersAreNeverPublished(walk: seq<Path>, dest: string)
    ensures dest + "_SUCCESS" !in KeysOf(Keep(walk, {"_SUCCESS", "._SUCCESS"}), dest)
    ensures dest + "._SUCCESS" !in KeysOf(Keep(walk, {"_SUCCESS", "._SUCCESS"}), dest)
  {
    forall r | r in Keep(walk, {"_SUCCESS", "._SUCCESS"})
      ensures KeyFor(dest, r) != dest + "_SUCCESS" && KeyFor(dest, r) != dest + "._SUCCESS"
    {
      KeyForShape(dest, r);
      if KeyFor(dest, r) == dest + "_SUCCESS" {
        assert Slashes(r) == "_SUCCESS";
        SlashesPreimage(r, "_SUCCESS");
      }
      if KeyFor(dest, r) == dest + "._SUCCESS" {
        assert Slashes(r) == "._SUCCESS";
        SlashesPreimage(r, "._SUCCESS");
      }
    }
  }

  /**
    The state a publish of `out` under the silver prefix ends in, from
    `objects` and `log`: a failed listing changes no object; a failed
    delete changes nothing but the deleted objects and uploads nothing; a
    failed put leaves a cleared prefix holding the files before it; success
    leaves exactly the published files.
  */
  ghost predicate PublishEnded(objects: Objects, log: seq<Call>, store: ObjectStore, out: LocalDir,
                               r: Result<(), SilverError>)
    reads store, out
  {
    var names := NamesUnder(objects, Bucket, SilverPrefix);
    var undeletable := set n | n in names && ObjectKey(Bucket, n) in store.deleteRefused;
    var cleared := log + [ListObjects(Bucket, SilverPrefix), RemoveObjects(Bucket, names)];
    && InFiles(out.walk, out.files)
    && (r.Success? || r.error.ListFailed? || r.error.DeleteFailed? || r.error.UploadFailed?)
    && (r.Failure? && r.error.ListFailed? ==>
          && !Listable(store)
          && store.objects == objects && store.log == log + [ListObjects(Bucket, SilverPrefix)])
    && (r.Failure? && r.error.DeleteFailed? ==>
          && Listable(store)
          && r.error.names == undeletable && r.error.names != {}
          && NamesUnder(store.objects, Bucket, SilverPrefix) == r.error.names
          && (forall k :: k in store.objects ==> k in objects && store.objects[k] == objects[k])
          && OutsideUnchanged(objects, store.objects, Bucket, SilverPrefix)
          && store.log == cleared)
    && (r.Failure? && r.error.UploadFailed? ==>
          && Listable(store) && undeletable == {}
          && exists n :: 0 <= n < |out.walk|
               && r.error.key == KeyFor(SilverPrefix, out.walk[n])
               && !store.Accepts(ObjectKey(Bucket, KeyFor(SilverPrefix, out.walk[n])))
               && store.objects == Published(objects, SilverPrefix, out.files, out.walk[..n])
               && store.log == cleared + PutCalls(SilverPrefix, out.files, out.walk[..n + 1]))
    && (r.Success? ==>
          && Listable(store) && undeletable == {}
          && store.objects == Published(objects, SilverPrefix, out.files, out.walk)
          && store.log == cleared + PutCalls(SilverPrefix, out.files, out.walk))
  }

  /** The manual overwrite: clear the silver prefix, then upload `out` only when the clear succeeded. */
  method Publish(store: ObjectStore, out: LocalDir) returns (r: Result<(), SilverError>)
    requires store.Valid() && out.Valid()
    modifies store
    ensures store.Valid() && store.buckets == old(store.buckets)
    ensures PublishEnded(old(store.objects), old(store.log), store, out, r)
  {
    assert InFiles(out.walk, out.files) by {
      forall i | 0 <= i < |out.walk| ensures out.walk[i] in out.files {
        assert out.walk[i] in out.walk;
      }
    }
    ghost var names := NamesUnder(store.objects, Bucket, SilverPrefix);
    r := RemovePrefix(store, SilverPrefix);
    if r.Failure? {
      return;
    }
    r := UploadDirectory(store, out, SilverPrefix);
    if r.Failure? {
      ghost var n :| 0 <= n < |out.walk|
                     && StoppedAt(Cleared(old(store.objects), Bucket, SilverPrefix),
                                  old(store.log) + [ListObjects(Bucket, SilverPrefix), RemoveObjects(Bucket, names)],
                                  store, out, SilverPrefix, n, r);
      assert InFiles(out.walk[..n + 1], out.files);
    }
  }

  /**
    The silver job (`main` of the silver script) as far as the store and the
    local output directory see it: connect, resolve the newest snapshot,
    strip the engine's markers from `out`, then clear the destination prefix
    and upload only when the clear reported no error. Success carries the
    name of the resolved snapshot.
  */
  method Run(store: ObjectStore, lister: Resolver.Lister, out: LocalDir) returns (r: Result<string, SilverError>)
    requires store.Valid() && out.Valid()
    modifies store, out
    ensures store.Valid() && out.Valid() && store.buckets == old(store.buckets)
    ensures r == Failure(NotConnected) <==> !store.online
    ensures r.Failure? && (r.error.NotConnected? || r.error.Unresolved?) ==>
              && store.objects == old(store.objects) && store.log == old(store.log) + [ListBuckets]
              && out.files == old(out.files) && out.walk == old(out.walk)
    ensures r == Failure(Unresolved(Resolver.NoDateFolder)) <==>
              store.online && Resolver.Tokens(lister(Resolver.BronzePrefix)) == {}
    ensures r.Failure? && r.error.Unresolved? && r.error.cause.NoJsonFile? ==>
              && Resolver.IsGreatest(r.error.cause.date, Resolver.Tokens(lister(Resolver.BronzePrefix)))
              && !Resolver.HasJson(lister(Resolver.FolderPrefix(r.error.cause.date)))
    ensures r.Success? ==> Resolver.Resolves(lister, r.value)
    ensures store.online ==>
              forall d :: Resolver.IsGreatest(d, Resolver.Tokens(lister(Resolver.BronzePrefix))) ==>
                ((r.Failure? && r.error.Unresolved?) <==> !Resolver.HasJson(lister(Resolver.FolderPrefix(d))))
    ensures r.Success? || r.error.ListFailed? || r.error.DeleteFailed? || r.error.UploadFailed? ==>
              && store.online
              && out.files == old(out.files) - {"_SUCCESS", "._SUCCESS"}
              && out.walk == Keep(old(out.walk), {"_SUCCESS", "._SUCCESS"})
              && PublishEnded(old(store.objects), old(store.log) + [ListBuckets], store, out,
                              if r.Success? then Success(()) else Failure(r.error))
  {
    var connected := store.ListBuckets();
    if !connected {
      return Failure(NotConnected);
    }
    var latest := Resolver.FindLatestJson(lister);
    if latest.Failure? {
      return Failure(Unresolved(latest.error));
    }

    // Downloading the snapshot and the engine's transform into `out` are not
    // part of this model: `out` holds what the engine wrote.
    out.RemoveMarkers();

    var published := Publish(store, out);
    if published.Failure? {
      return Failure(published.error);
    }
    return Success(latest.value);
  }
}
