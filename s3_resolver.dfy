/**
 * `retrieveLatestSavepointS3`: list the bucket under the location's prefix and
 * return the location of the newest `_metadata` object.
 */
module S3Resolver {
  import opened Wrappers
  import opened Strings
  import opened Newest
  import opened Location

  /** One object of a listing response: its full key and its last-modified time. */
  datatype S3Object = S3Object(key: string, lastModified: int)

  /** The listing request: a bucket, and a key prefix when one is set. */
  datatype ListObjectsInput = ListObjectsInput(bucket: string, prefix: Option<string>)

  /**
   * The object-storage collaborator: the error, if any, of loading the
   * default configuration, and the single listing call.
   */
  datatype ObjectStore = ObjectStore(
    configError: Option<string>,
    listObjects: ListObjectsInput -> Result<seq<S3Object>>)

  /** The marker suffix of a savepoint's metadata object. */
  const MetadataSuffix := "_metadata"

  predicate IsMetadataKey(key: string) {
    HasSuffix(key, MetadataSuffix)
  }

  /**
   * The listing request for a location: the bucket is the host; a prefix is
   * set exactly when the path is non-empty, and it is the path without its
   * leading '/' characters.
   */
  function ListInputFor(u: Url): (input: ListObjectsInput)
    ensures input.bucket == u.host
    ensures input.prefix.Some? <==> u.path != ""
    ensures input.prefix.Some? ==> StripsLeadingSlashes(u.path, input.prefix.value)
  {
    ListObjectsInput(u.host, if u.path != "" then Some(TrimLeadingSlashes(u.path)) else None)
  }

  /**
   * What the scan sees of a listing: only `_metadata` keys are candidates.
   * The ensures only expose the elements for the proofs; they are not a specification.
   */
  function Entries(objects: seq<S3Object>): (es: seq<Entry>)
    ensures |es| == |objects|
    ensures forall i :: 0 <= i < |objects| ==>
      es[i] == Entry(IsMetadataKey(objects[i].key), objects[i].lastModified)
  {
    seq(|objects|, i requires 0 <= i < |objects| =>
      Entry(IsMetadataKey(objects[i].key), objects[i].lastModified))
  }

  /** The URL a scan holds after choosing `best`: the location's scheme and host with the chosen key. */
  function UrlOf(u: Url, objects: seq<S3Object>, best: Option<nat>): Url {
    if best.Some? && best.value < |objects| then Url(u.scheme, u.host, objects[best.value].key)
    else ZeroUrl
  }

  /** The URL of the newest metadata object of a listing, or the zero URL. */
  function NewestUrl(u: Url, objects: seq<S3Object>): Url {
    UrlOf(u, objects, Latest(Entries(objects)))
  }

  /** What `retrieveLatestSavepointS3` returns for location `u`. */
  function ResolveS3(u: Url, store: ObjectStore): Result<string> {
    if store.configError.Some? then
      Err("unable to load SDK config: " + store.configError.value)
    else
      match store.listObjects(ListInputFor(u))
      case Err(e) => Err("listing S3 objects: " + e)
      case Ok(objects) => Ok(Render(NewestUrl(u, objects)))
  }

  /** The resolver itself: one listing request, then one pass over the returned objects. */
  method RetrieveLatestSavepointS3(u: Url, store: ObjectStore) returns (r: Result<string>)
    ensures r == ResolveS3(u, store)
  {
    if store.configError.Some? {
      return Err("unable to load SDK config: " + store.configError.value);
    }
    var input := ListObjectsInput(u.host, None);
    if u.path != "" {
      input := input.(prefix := Some(TrimLeadingSlashes(u.path)));
    }

    var newestFile := ZeroUrl;
    var newestTime := Start;

    var result := store.listObjects(input);
    if result.Err? {
      return Err("listing S3 objects: " + result.error);
    }
    var contents := result.value;
    ghost var es := Entries(contents);
    if |contents| > 0 {
      for i := 0 to |contents|
        invariant newestTime == BestStamp(es[..i], Latest(es[..i]))
        invariant newestFile == UrlOf(u, contents, Latest(es[..i]))
      {
        assert es[..i + 1][..i] == es[..i];
        var obj := contents[i];
        if IsMetadataKey(obj.key) && obj.lastModified > newestTime {
          newestTime := obj.lastModified;
          newestFile := Url(u.scheme, u.host, obj.key);
        }
      }
    }
    assert es[..|contents|] == es;
    return Ok(Render(newestFile));
  }

  /** A failed listing is an error carrying the listing's cause, and no result. */
  lemma ListingFailure(u: Url, store: ObjectStore, e: string)
    requires store.configError.None?
    requires store.listObjects(ListInputFor(u)) == Err(e)
    ensures ResolveS3(u, store) == Err("listing S3 objects: " + e)
  {
  }

  /**
   * A successful listing never yields an error. The result is the empty string
   * exactly when no `_metadata` object is after the zero time (an empty
   * listing included); otherwise it is the location, with the input's scheme
   * and host, of the newest `_metadata` object, the first listed among equals.
   */
  lemma NewestMetadataObject(u: Url, store: ObjectStore, objects: seq<S3Object>)
    requires store.configError.None?
    requires store.listObjects(ListInputFor(u)) == Ok(objects)
    ensures ResolveS3(u, store).Ok?
    ensures ResolveS3(u, store).value == "" <==>
      forall j :: 0 <= j < |objects| && IsMetadataKey(objects[j].key) ==> objects[j].lastModified <= Start
    ensures forall i :: IsNewest(Entries(objects), i) ==>
      && IsMetadataKey(objects[i].key)
      && ResolveS3(u, store).value == Render(Url(u.scheme, u.host, objects[i].key))
    ensures ResolveS3(u, store).value != "" ==>
      exists i :: IsNewest(Entries(objects), i) &&
        ResolveS3(u, store).value == Render(Url(u.scheme, u.host, objects[i].key))
  {
    var es := Entries(objects);
    LatestCharacterized(es);
    match Latest(es)
    case None =>
    case Some(i) =>
      assert IsMetadataKey(objects[i].key);
      assert Url(u.scheme, u.host, objects[i].key) != ZeroUrl;
  }

  /** An empty listing, or one without `_metadata` keys, resolves to "" without error. */
  lemma NoMetadataIsEmptyResult(u: Url, store: ObjectStore, objects: seq<S3Object>)
    requires store.configError.None?
    requires store.listObjects(ListInputFor(u)) == Ok(objects)
    requires forall j :: 0 <= j < |objects| ==> !IsMetadataKey(objects[j].key)
    ensures ResolveS3(u, store) == Ok("")
  {
    NewestMetadataObject(u, store, objects);
  }

  /**
   * The result keeps the input's scheme and host; only the path becomes the
   * winning key. For an `s3` location with a bucket and a relative key this is
   * `scheme://host/key`.
   */
  lemma ResultKeepsSchemeAndHost(u: Url, objects: seq<S3Object>)
    ensures NewestUrl(u, objects) == ZeroUrl ||
      (NewestUrl(u, objects).scheme == u.scheme && NewestUrl(u, objects).host == u.host &&
       IsMetadataKey(NewestUrl(u, objects).path))
    ensures var n := NewestUrl(u, objects);
      (&& n != ZeroUrl && IsS3Scheme(u.scheme) && u.host != ""
       && n.path != "" && n.path[0] != '/') ==>
      Render(n) == u.scheme + "://" + u.host + "/" + n.path
  {
    var es := Entries(objects);
    LatestSound(es);
    var n := NewestUrl(u, objects);
    if n != ZeroUrl {
      assert IsMetadataKey(n.path);
      if IsS3Scheme(u.scheme) && u.host != "" && n.path[0] != '/' {
        RenderHierarchical(n);
      }
    }
  }
}
