/**
  An in-memory stand-in for the object store both jobs talk to: buckets, a
  map from (bucket, object name) to stored objects, and a log of the calls
  made to it. Faults are injected through constants fixed at construction:
  the store can be offline, its bucket administration or only bucket
  creation can fail, its recursive listings can fail, and puts and deletes
  of chosen objects can be refused, each independently.
*/
module Store {
  import opened Text

  newtype byte = x: int | 0 <= x < 256
  type Bytes = seq<byte>

  datatype ObjectKey = ObjectKey(bucket: string, name: string)

  datatype StoredObject = StoredObject(data: Bytes, contentType: string)

  /** The external calls a job makes on the store, in the order made. */
  datatype Call =
    | ListBuckets
    | BucketExists(bucket: string)
    | MakeBucket(bucket: string)
    | PutObject(key: ObjectKey, length: nat, contentType: string)
    | ListObjects(bucket: string, prefix: string)
    | RemoveObjects(bucket: string, names: set<string>)

  /** The content type the store gives an object uploaded from a file without one. */
  const OctetStream: string := "application/octet-stream"

  predicate Under(k: ObjectKey, bucket: string, prefix: string) {
    k.bucket == bucket && HasPrefix(k.name, prefix)
  }

  /** The names a recursive listing of `bucket` under `prefix` returns. */
  function NamesUnder(objects: map<ObjectKey, StoredObject>, bucket: string, prefix: string): (names: set<string>)
    ensures forall n :: n in names <==> ObjectKey(bucket, n) in objects && HasPrefix(n, prefix)
  {
    set k | k in objects && Under(k, bucket, prefix) :: k.name
  }

  class ObjectStore {
    /** False when the store cannot be reached or rejects the credentials. */
    const online: bool
    /** True when `bucket_exists` and `make_bucket` fail. */
    const adminFails: bool
    /** True when `make_bucket` fails although `bucket_exists` works (say, a key that may not create buckets). */
    const makeBucketFails: bool
    /** True when recursive listings fail although the sanity check works (say, a connection dropped in between). */
    const listFails: bool
    /** Objects whose put the store refuses. */
    const refused: set<ObjectKey>
    /** Objects whose delete the store refuses. */
    const deleteRefused: set<ObjectKey>

    var buckets: set<string>
    var objects: map<ObjectKey, StoredObject>
    var log: seq<Call>

    ghost predicate Valid()
      reads this
    {
      forall k :: k in objects ==> k.bucket in buckets
    }

    /** Whether a put of `k` would be carried out. */
    predicate Accepts(k: ObjectKey)
      reads this
    {
      online && k.bucket in buckets && k !in refused
    }

    constructor (online: bool, adminFails: bool, makeBucketFails: bool, listFails: bool,
                 refused: set<ObjectKey>, deleteRefused: set<ObjectKey>,
                 buckets: set<string>, objects: map<ObjectKey, StoredObject>)
      requires forall k :: k in objects ==> k.bucket in buckets
      ensures Valid()
      ensures this.online == online && this.adminFails == adminFails
      ensures this.makeBucketFails == makeBucketFails && this.listFails == listFails
      ensures this.refused == refused && this.deleteRefused == deleteRefused
      ensures this.buckets == buckets && this.objects == objects && log == []
    {
      this.online, this.adminFails, this.refused := online, adminFails, refused;
      this.makeBucketFails, this.listFails, this.deleteRefused := makeBucketFails, listFails, deleteRefused;
      this.buckets, this.objects, this.log := buckets, objects, [];
    }

    /** The `list_buckets` sanity check both jobs use to test the connection. */
    method ListBuckets() returns (ok: bool)
      modifies this`log
      ensures ok == online
      ensures log == old(log) + [Call.ListBuckets]
    {
      ok := online;
      log := log + [Call.ListBuckets];
    }

    method BucketExists(bucket: string) returns (ok: bool, present: bool)
      modifies this`log
      ensures ok == (online && !adminFails)
      ensures ok ==> present == (bucket in buckets)
      ensures log == old(log) + [Call.BucketExists(bucket)]
    {
      ok := online && !adminFails;
      present := ok && bucket in buckets;
      log := log + [Call.BucketExists(bucket)];
    }

    method MakeBucket(bucket: string) returns (ok: bool)
      requires Valid()
      modifies this`buckets, this`log
      ensures Valid()
      ensures ok == (online && !adminFails && !makeBucketFails)
      ensures buckets == if ok then old(buckets) + {bucket} else old(buckets)
      ensures log == old(log) + [Call.MakeBucket(bucket)]
    {
      ok := online && !adminFails && !makeBucketFails;
      if ok {
        buckets := buckets + {bucket};
      }
      log := log + [Call.MakeBucket(bucket)];
    }

    /**
      Stores the first `length` bytes of `data` under `name`; fails when the
      stream holds fewer bytes than announced.
    */
    method PutObject(bucket: string, name: string, data: Bytes, length: nat, contentType: string)
      returns (ok: bool)
      requires Valid()
      modifies this`objects, this`log
      ensures Valid()
      ensures ok == (old(Accepts(ObjectKey(bucket, name))) && length <= |data|)
      ensures objects == if ok then old(objects)[ObjectKey(bucket, name) := StoredObject(data[..length], contentType)]
                         else old(objects)
      ensures log == old(log) + [Call.PutObject(ObjectKey(bucket, name), length, contentType)]
    {
      var k := ObjectKey(bucket, name);
      ok := Accepts(k) && length <= |data|;
      if ok {
        objects := objects[k := StoredObject(data[..length], contentType)];
      }
      log := log + [Call.PutObject(k, length, contentType)];
    }

    /** `fput_object`: the whole file, with the default content type. */
    method FPutObject(bucket: string, name: string, data: Bytes) returns (ok: bool)
      requires Valid()
      modifies this`objects, this`log
      ensures Valid()
      ensures ok == old(Accepts(ObjectKey(bucket, name)))
      ensures objects == if ok then old(objects)[ObjectKey(bucket, name) := StoredObject(data, OctetStream)]
                         else old(objects)
      ensures log == old(log) + [Call.PutObject(ObjectKey(bucket, name), |data|, OctetStream)]
    {
      ok := PutObject(bucket, name, data, |data|, OctetStream);
      assert data[..|data|] == data;
    }

    /**
      A recursive `list_objects` under `prefix`, read to the end: the names
      found, or a failure when the store cannot be reached, the listing
      fails, or the bucket does not exist (`NoSuchBucket`).
    */
    method ListObjects(bucket: string, prefix: string) returns (ok: bool, names: set<string>)
      modifies this`log
      ensures ok == (online && !listFails && bucket in buckets)
      ensures names == if ok then NamesUnder(objects, bucket, prefix) else {}
      ensures log == old(log) + [Call.ListObjects(bucket, prefix)]
    {
      ok := online && !listFails && bucket in buckets;
      names := if ok then NamesUnder(objects, bucket, prefix) else {};
      log := log + [Call.ListObjects(bucket, prefix)];
    }

    /**
      The batch delete: every named object whose delete is not refused is
      removed, and the names that could not be removed are reported (all of
      them when the store is offline).
    */
    method RemoveObjects(bucket: string, names: set<string>) returns (errors: set<string>)
      requires Valid()
      modifies this`objects, this`log
      ensures Valid()
      ensures errors == set n | n in names && (!online || ObjectKey(bucket, n) in deleteRefused)
      ensures objects == map k | k in old(objects) && !(k.bucket == bucket && k.name in names && k.name !in errors)
                           :: old(objects)[k]
      ensures log == old(log) + [Call.RemoveObjects(bucket, names)]
    {
      errors := set n | n in names && (!online || ObjectKey(bucket, n) in deleteRefused);
      objects := map k | k in objects && !(k.bucket == bucket && k.name in names && k.name !in errors) :: objects[k];
      log := log + [Call.RemoveObjects(bucket, names)];
    }
  }
}
