/**
 * Locations: the parsed form of a location string, how it is rendered back to
 * a string, and the classification that picks a resolver.
 */
module Location {
  import opened Wrappers

  /** The parts of a `url.URL` the resolvers read or write. */
  datatype Url = Url(scheme: string, host: string, path: string)

  /** The zero `url.URL`, which the object-storage resolver returns when nothing qualifies. */
  const ZeroUrl := Url("", "", "")

  /** The object-storage schemes, as a Go map from scheme to `true`. */
  const S3Schemes: map<string, bool> := map["s3" := true, "s3a" := true, "s3p" := true]

  /** `s3Schemes[scheme]`: a scheme that is not a key reads as `false`. */
  function IsS3Scheme(scheme: string): (b: bool)
    ensures b <==> scheme == "s3" || scheme == "s3a" || scheme == "s3p"
  {
    scheme in S3Schemes && S3Schemes[scheme]
  }

  /**
   * `url.URL.String()` for a URL with only a scheme, a host and a path:
   * `scheme:`, then `//host` when there is a scheme or a host (the `//` only
   * when the host or the path is non-empty), then a `/` when a relative path
   * follows a host, then the path. Escaping is not modelled.
   */
  function Render(u: Url): (s: string)
    ensures s == "" <==> u == ZeroUrl
    ensures |u.path| <= |s| && s[|s| - |u.path|..] == u.path
  {
    var head := if u.scheme != "" then u.scheme + ":" else "";
    var authority :=
      if u.scheme != "" || u.host != "" then
        (if u.host != "" || u.path != "" then "//" else "") + u.host
      else "";
    var separator := if u.path != "" && u.path[0] != '/' && u.host != "" then "/" else "";
    head + authority + separator + u.path
  }

  /** A URL with a scheme, a host and a relative path renders as `scheme://host/path`. */
  lemma RenderHierarchical(u: Url)
    requires u.scheme != "" && u.host != ""
    requires u.path != "" && u.path[0] != '/'
    ensures Render(u) == u.scheme + "://" + u.host + "/" + u.path
  {
  }

  /** Which resolver a location goes to, and what it is given. */
  datatype Route = ToS3(url: Url) | ToLocal(dir: string)

  /**
   * The dispatch of `retrieveLatestSavepoint`: `parsed` is the outcome of
   * `url.Parse(dir)`. Object storage is chosen exactly when parsing succeeded
   * and the scheme is one of the three names; every other string, unparsable
   * ones included, goes to the local resolver unchanged.
   */
  function Classify(dir: string, parsed: Option<Url>): (r: Route)
    ensures r.ToS3? <==> parsed.Some? && parsed.value.scheme in {"s3", "s3a", "s3p"}
    ensures r.ToS3? ==> r.url == parsed.value
    ensures r.ToLocal? ==> r.dir == dir
  {
    if parsed.Some? && IsS3Scheme(parsed.value.scheme) then ToS3(parsed.value) else ToLocal(dir)
  }
}
