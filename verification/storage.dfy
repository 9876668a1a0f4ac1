/** The pure parts of the storage service: where an upload is stored, how its
    outcome is reported, and how an object's path is read back from its URL. */
module Storage {
  import opened Wrappers
  import opened Text
  import opened Records

  datatype Bucket = UserPhotos | Memories | Thumbnails

  function BucketName(b: Bucket): string {
    match b
    case UserPhotos => "user-photos"
    case Memories => "memories"
    case Thumbnails => "thumbnails"
  }

  // ---------------------------------------------------------------------------
  // Uploading
  // ---------------------------------------------------------------------------

  /** The object path of an upload: the user's folder, then the file name. */
  function UploadObjectPath(userId: string, fileName: string): (path: string)
    ensures |path| == |userId| + 1 + |fileName|
    ensures path[..|userId|] == userId && path[|userId|] == '/' && path[|userId| + 1..] == fileName
    ensures Split(path, '/') == Split(userId, '/') + Split(fileName, '/')
  {
    SplitAppend(userId, fileName, '/');
    userId + "/" + fileName
  }

  /** What `uploadFile` returns: a public URL or an error message. */
  datatype UploadResult = UploadResult(url: Option<string>, error: Option<string>)

  const UploadFailedMessage := "Failed to upload file"

  /** The outcome of an upload. A successful upload carries the public URL the
      storage client reports for the stored object. */
  function UploadFile(response: Response<string>): (r: UploadResult)
    ensures r.url.Some? != r.error.Some?
    ensures r.url.Some? <==> response.Ok?
    ensures response.Ok? ==> r.url == Some(response.data)
    ensures response.Err? ==> r.error == Some(response.message)
    ensures response.Threw? ==> r.error == Some(UploadFailedMessage)
  {
    match response
    case Ok(publicUrl) => UploadResult(Some(publicUrl), None)
    case Err(message) => UploadResult(None, Some(message))
    case Threw => UploadResult(None, Some(UploadFailedMessage))
  }

  // ---------------------------------------------------------------------------
  // Reading a storage path back from a URL
  // ---------------------------------------------------------------------------

  /** The pathname of a URL, or the failure of the URL constructor. */
  datatype ParsedUrl = Parsed(pathname: string) | Unparseable

  /** `Array.prototype.findIndex` for equality: the first position holding
      `target`, or -1 when there is none. */
  function FindIndex(items: seq<string>, target: string): (i: int)
    ensures -1 <= i < |items|
    ensures i == -1 <==> target !in items
    ensures i >= 0 ==> items[i] == target && target !in items[..i]
    decreases |items|
  {
    if |items| == 0 then -1
    else if items[0] == target then 0
    else
      var j := FindIndex(items[1..], target);
      assert j >= 0 ==> items[..j + 1] == [items[0]] + items[1..][..j];
      if j == -1 then -1 else j + 1
  }

  /** `Array.prototype.slice(start)` for a non-negative start: the empty list
      once `start` is past the end. */
  function SliceFrom<T>(items: seq<T>, start: nat): (r: seq<T>)
    ensures start <= |items| ==> r == items[start..]
    ensures start >= |items| ==> r == []
  {
    if start <= |items| then items[start..] else []
  }

  /** `getStoragePathFromUrl`: split the pathname on '/', find the first
      segment equal to "object", skip it and the segment after it, and join the
      remaining segments with '/'. No "object" segment, or a URL that does not
      parse, gives nothing. */
  function StoragePathFromUrl(url: ParsedUrl): (r: Option<string>)
    ensures r.None? <==> url.Unparseable? || "object" !in Split(url.pathname, '/')
    ensures r.Some? ==> IsSuffix(r.value, url.pathname)
    ensures r.Some? ==>
              var parts := Split(url.pathname, '/');
              var k := FindIndex(parts, "object");
              k + 2 >= |parts| ==> r.value == ""
  {
    match url
    case Unparseable => None
    case Parsed(pathname) =>
      var parts := Split(pathname, '/');
      var objectIndex := FindIndex(parts, "object");
      if objectIndex == -1 then
        None
      else
        var start := objectIndex + 2;
        var rest := SliceFrom(parts, start);
        if start <= |parts| then
          JoinTailIsSuffix(parts, '/', start);
          Some(Join(rest, '/'))
        else
          Some(Join(rest, '/'))
  }

  /** `findIndex` stops at the first occurrence. */
  lemma FindIndexFirst(before: seq<string>, target: string, after: seq<string>)
    requires target !in before
    ensures FindIndex(before + [target] + after, target) == |before|
  {
    var items := before + [target] + after;
    assert items[|before|] == target;
    assert items[..|before|] == before;
  }

  /** The segments of `<prefix>/object/<segment>/<rest>`. */
  lemma ObjectPathSegments(prefix: string, segment: string, rest: string)
    requires '/' !in segment
    ensures Split(prefix + "/object/" + segment + "/" + rest, '/')
            == Split(prefix, '/') + ["object"] + ([segment] + Split(rest, '/'))
  {
    var tail := segment + ['/'] + rest;
    assert prefix + "/object/" + segment + "/" + rest == prefix + ['/'] + ("object" + ['/'] + tail);
    SplitAround(prefix, "object", tail, '/');
    SplitAppend(segment, rest, '/');
    SplitWithoutSeparator(segment, '/');
  }

  /** The storage path of a pathname whose segments hold an "object" segment:
      the segments after the one that follows the first "object", joined. */
  lemma StoragePathFromSegments(pathname: string, before: seq<string>, after: seq<string>)
    requires Split(pathname, '/') == before + ["object"] + after
    requires "object" !in before
    requires |after| >= 1
    ensures StoragePathFromUrl(Parsed(pathname)) == Some(Join(after[1..], '/'))
  {
    var parts := Split(pathname, '/');
    FindIndexFirst(before, "object", after);
    assert parts[|before| + 2..] == after[1..];
  }

  /** In a pathname of the form `<prefix>/object/<segment>/<rest>` whose prefix
      has no "object" segment, the storage path is exactly `<rest>`: the first
      "object" is the one used, and the segment after it is dropped. */
  lemma StoragePathAfterFirstObject(prefix: string, segment: string, rest: string)
    requires "object" !in Split(prefix, '/')
    requires '/' !in segment
    ensures StoragePathFromUrl(Parsed(prefix + "/object/" + segment + "/" + rest)) == Some(rest)
  {
    var after := [segment] + Split(rest, '/');
    ObjectPathSegments(prefix, segment, rest);
    StoragePathFromSegments(prefix + "/object/" + segment + "/" + rest, Split(prefix, '/'), after);
    assert after[1..] == Split(rest, '/');
  }

  /** The pathname the storage backend gives the public URL of an object:
      `<root>/object/public/<bucket>/<object path>`, where `root` is the path of
      the backend's storage API (`/storage/v1` on the hosted service). */
  function PublicObjectPathname(root: string, bucket: Bucket, objectPath: string): string {
    root + "/object/" + "public" + "/" + (BucketName(bucket) + "/" + objectPath)
  }

  /** Reading the storage path back from an object's public URL gives the
      bucket name, a '/', and the object path: the bucket segment is kept. */
  lemma StoragePathOfPublicUrl(root: string, bucket: Bucket, objectPath: string)
    requires "object" !in Split(root, '/')
    ensures StoragePathFromUrl(Parsed(PublicObjectPathname(root, bucket, objectPath)))
            == Some(BucketName(bucket) + "/" + objectPath)
  {
    StoragePathAfterFirstObject(root, "public", BucketName(bucket) + "/" + objectPath);
  }
}
