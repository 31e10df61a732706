/**
 * `S3ImageClient`: uploads profile images to an object-storage bucket and
 * hands out their public URLs. The storage service is modelled by the objects
 * it holds, keyed by bucket and key.
 */
module S3Image {
  import opened Optional

  newtype byte = b: int | 0 <= b < 256

  /** The base of every URL the client hands out. */
  const StorageHost: string := "https://storage.yandexcloud.net/"

  /** The canned access control an object is stored with. */
  datatype Acl = Private | PublicRead

  datatype S3Object = S3Object(content: seq<byte>, acl: Acl)

  /** Where an object lives: a bucket and a key inside it. */
  datatype ObjectId = ObjectId(bucket: string, key: string)

  /** The position of the first '/' in `s`, or `|s|` when there is none. */
  function IndexOfSlash(s: string): (r: nat)
    ensures r <= |s|
    ensures r < |s| ==> s[r] == '/'
    ensures forall i :: 0 <= i < r ==> s[i] != '/'
  {
    if |s| == 0 then 0
    else if s[0] == '/' then 0
    else 1 + IndexOfSlash(s[1..])
  }

  /**
   * Read bucket and key back out of a URL: the bucket runs up to the first '/'
   * after the host. This inverse is not part of the client; it shows what the
   * URL determines.
   */
  function ParseImageUrl(url: string): Option<ObjectId> {
    if |url| < |StorageHost| || url[..|StorageHost|] != StorageHost then None
    else
      var rest := url[|StorageHost|..];
      var i := IndexOfSlash(rest);
      if i == |rest| then None
      else Some(ObjectId(rest[..i], rest[i + 1..]))
  }

  lemma IndexOfSlashAfter(b: string, tail: string)
    requires '/' !in b
    ensures IndexOfSlash(b + "/" + tail) == |b|
  {
    var s := b + "/" + tail;
    var r := IndexOfSlash(s);
    assert s[|b|] == '/';
    assert forall i :: 0 <= i < |b| ==> s[i] == b[i];
  }

  class S3ImageClient {
    /** The configured bucket name. */
    const bucketName: string
    /** The objects the storage service holds. */
    var storage: map<ObjectId, S3Object>

    constructor (bucketName: string, storage: map<ObjectId, S3Object>)
      ensures this.bucketName == bucketName && this.storage == storage
    {
      this.bucketName := bucketName;
      this.storage := storage;
    }

    /** `getImageUrl`: the host, the bucket, '/', then the object key. */
    function GetImageUrl(name: string): (url: string)
      ensures |url| == |StorageHost| + |bucketName| + 1 + |name|
      ensures url[..|StorageHost|] == StorageHost
      ensures url[|StorageHost|..|StorageHost| + |bucketName|] == bucketName
      ensures url[|StorageHost| + |bucketName|] == '/'
      ensures url[|url| - |name|..] == name
    {
      StorageHost + bucketName + "/" + name
    }

    /**
     * `uploadImage`: store the bytes under `name` in the configured bucket,
     * readable by anyone, and return the URL `getImageUrl` gives for `name`:
     * a URL that does not depend on the bytes.
     */
    method UploadImage(file: seq<byte>, name: string) returns (url: string)
      modifies this
      ensures storage == old(storage)[ObjectId(bucketName, name) := S3Object(file, PublicRead)]
      ensures url == GetImageUrl(name)
    {
      storage := storage[ObjectId(bucketName, name) := S3Object(file, PublicRead)];
      url := StorageHost + bucketName + "/" + name;
    }
  }

  /** For a fixed bucket, distinct names give distinct URLs. */
  lemma ImageUrlInjective(c: S3ImageClient, n1: string, n2: string)
    requires c.GetImageUrl(n1) == c.GetImageUrl(n2)
    ensures n1 == n2
  {
  }

  /** When the bucket name holds no '/', as bucket naming rules demand, the URL gives back bucket and key. */
  lemma ImageUrlRoundTrip(c: S3ImageClient, name: string)
    requires '/' !in c.bucketName
    ensures ParseImageUrl(c.GetImageUrl(name)) == Some(ObjectId(c.bucketName, name))
  {
    var url := c.GetImageUrl(name);
    var rest := url[|StorageHost|..];
    assert rest == c.bucketName + "/" + name;
    IndexOfSlashAfter(c.bucketName, name);
    assert rest[..|c.bucketName|] == c.bucketName;
    assert rest[|c.bucketName| + 1..] == name;
  }

  /** Every URL that parses is the one built from what it parses to, with a bucket free of '/'. */
  lemma ParseImageUrlSound(url: string, o: ObjectId)
    requires ParseImageUrl(url) == Some(o)
    ensures '/' !in o.bucket
    ensures url == StorageHost + o.bucket + "/" + o.key
  {
  }

  /** Once a bucket name holds '/', two different (bucket, key) pairs share a URL. */
  lemma ImageUrlBucketWithSlashCollides(c1: S3ImageClient, c2: S3ImageClient)
    requires c1.bucketName == "a/b" && c2.bucketName == "a"
    ensures c1.GetImageUrl("c") == c2.GetImageUrl("b/c")
  {
  }
}
