/**
 * `retrieveLatestSavepoint`: classify a location string once, then run
 * exactly one of the two resolvers on it.
 */
module RetrieveSavepoint {
  import opened Wrappers
  import opened Location
  import opened S3Resolver
  import opened LocalResolver

  /** The operator's collaborators: its filesystem and the object store. */
  datatype Operator = Operator(fs: FileSystem, store: ObjectStore)

  /** What `retrieveLatestSavepoint` returns; `parse` stands for `url.Parse`. */
  function Resolve(o: Operator, parse: string -> Option<Url>, dir: string): Result<string> {
    match Classify(dir, parse(dir))
    case ToS3(u) => ResolveS3(u, o.store)
    case ToLocal(d) => ResolveLocal(d, o.fs)
  }

  /** The entry point: classify, then delegate to one resolver. */
  method RetrieveLatestSavepoint(o: Operator, parse: string -> Option<Url>, dir: string)
    returns (r: Result<string>)
    ensures r == Resolve(o, parse, dir)
  {
    var parsed := parse(dir);
    if parsed.Some? && IsS3Scheme(parsed.value.scheme) {
      r := RetrieveLatestSavepointS3(parsed.value, o.store);
      return;
    }
    r := RetrieveLatestSavepointLocal(dir, o.fs);
  }

  /**
   * A location whose parse succeeds with scheme `s3`, `s3a` or `s3p` is resolved
   * in object storage; every other location, unparsable ones included, is
   * resolved as the original string in the local filesystem.
   */
  lemma Dispatch(o: Operator, parse: string -> Option<Url>, dir: string)
    ensures parse(dir).Some? && parse(dir).value.scheme in {"s3", "s3a", "s3p"} ==>
      Resolve(o, parse, dir) == ResolveS3(parse(dir).value, o.store)
    ensures !(parse(dir).Some? && parse(dir).value.scheme in {"s3", "s3a", "s3p"}) ==>
      Resolve(o, parse, dir) == ResolveLocal(dir, o.fs)
  {
  }

  /**
   * Nothing to choose from is a success with "" in object storage but an error
   * locally: an empty bucket listing and an empty directory differ.
   */
  lemma EmptyListingAsymmetry(o: Operator, parse: string -> Option<Url>, s3dir: string, localDir: string)
    requires parse(s3dir).Some? && IsS3Scheme(parse(s3dir).value.scheme)
    requires o.store.configError.None?
    requires o.store.listObjects(ListInputFor(parse(s3dir).value)) == Ok([])
    requires !(parse(localDir).Some? && IsS3Scheme(parse(localDir).value.scheme))
    requires o.fs.readDir(TrimDir(localDir)) == Ok([])
    ensures Resolve(o, parse, s3dir) == Ok("")
    ensures Resolve(o, parse, localDir) == Err("No savepoints present in directory: " + TrimDir(localDir))
  {
    NoMetadataIsEmptyResult(parse(s3dir).value, o.store, []);
  }
}
