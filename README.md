# Latest-savepoint resolution, modelled in Dafny

This project models how the deployer's `RealOperator` finds the most recent
savepoint under a location string (`cmd/cli/operations/retrieve_savepoint.go`).
A location whose URL parse succeeds with scheme `s3`, `s3a` or `s3p` is resolved
in object storage. The resolver sends one listing request for the bucket (the URL
host), with a key prefix when the URL has a path. It keeps the newest object
whose key ends in `_metadata` and returns `scheme://host/key`, or `""` when
nothing qualifies. Every other string is resolved as a local directory. One
trailing `/` is removed, the directory is listed, and each entry is stat'ed in
listing order. The first stat failure aborts the scan. The result is the path of
the entry with the greatest Unix modification time, and an empty directory is an
error. Both scans keep the first entry among equal timestamps.

Modules: `Wrappers` (Option, Result), `Strings` (the `strings` functions used),
`Newest` (the selection rule both scans share, `Latest`, with its
characterisation `IsNewest` / `NoneNewer`), `Location` (URL parts, rendering, the
scheme map, classification), `S3Resolver`, `LocalResolver` and
`RetrieveSavepoint` (the entry point). The two resolvers are
methods with loops; the entry point is a method that calls one of them. Each
is proved equal to a specification function (`ResolveS3`, `ResolveLocal`,
`Resolve`), and the lemmas state what those functions promise.

Collaborators are inputs:
- `url.Parse` is a function `string -> Option<Url>`.
- Loading the AWS configuration is the optional error `ObjectStore.configError`.
- `ListObjectsV2` is `ObjectStore.listObjects: ListObjectsInput -> Result<seq<S3Object>>`.
- `afero.ReadDir` is `FileSystem.readDir`.
- `Filesystem.Stat(...).ModTime().Unix()` is `FileSystem.stat`.

Timestamps are integers. The S3 scan starts from 0, which stands for Go's zero
`time.Time`. The local scan starts from Unix time 0. Errors are their messages.

Three edge cases follow directly from the code:
- Locally, when every entry's modification time is at or before Unix time 0,
  the result is `""` with no error.
- In object storage, a `_metadata` object whose time is not after the zero time
  is never chosen, the same as having no candidate.
- A URL path of `/` still sets a prefix, and that prefix is the empty string.

## Model

| member | source | states |
|---|---|---|
| `Location.IsS3Scheme` | cmd/cli/operations/retrieve_savepoint.go:17-21 | the scheme map answers true exactly for `s3`, `s3a`, `s3p` (case-sensitive); a missing key reads as false |
| `Location.Classify` | cmd/cli/operations/retrieve_savepoint.go:23-31 | object storage is chosen iff the parse succeeded and the scheme is one of the three; it then gets the parsed URL; otherwise the local resolver gets the original string unchanged |
| `RetrieveSavepoint.RetrieveLatestSavepoint` | cmd/cli/operations/retrieve_savepoint.go:23-31 | the entry point returns exactly what the one chosen resolver returns (`Resolve`) |
| `RetrieveSavepoint.Dispatch` | cmd/cli/operations/retrieve_savepoint.go:24-30 | both directions of the dispatch: S3 scheme after a successful parse gives the S3 resolution of the parsed URL, anything else gives the local resolution of the unmodified string |
| `RetrieveSavepoint.EmptyListingAsymmetry` | cmd/cli/operations/retrieve_savepoint.go:70-94 | an empty bucket listing resolves to `""` without error while an empty directory is the error `No savepoints present in directory: <dir>` |
| `Strings.TrimLeadingSlashes` | cmd/cli/operations/retrieve_savepoint.go:45 | the result is a suffix of the input, everything removed is `/`, and the result does not start with `/` |
| `Strings.TrimSuffix` | cmd/cli/operations/retrieve_savepoint.go:84 | with the suffix present, result + suffix is the input; otherwise the input is returned |
| `S3Resolver.ListInputFor` | cmd/cli/operations/retrieve_savepoint.go:40-46 | the bucket is the URL host; a prefix is set iff the path is non-empty, and it is the path with all leading `/` removed |
| `Location.Render` | cmd/cli/operations/retrieve_savepoint.go:79 | rendering a URL gives `""` exactly for the zero URL, and always ends with the path |
| `Location.RenderHierarchical` | cmd/cli/operations/retrieve_savepoint.go:74-79 | a URL with scheme, host and relative key renders as `scheme://host/key` |
| `Newest.Latest` | cmd/cli/operations/retrieve_savepoint.go:70-76 | the index the scan holds, if any, is inside the listing |
| `Newest.LatestSound` | cmd/cli/operations/retrieve_savepoint.go:70-76 | the held entry is a candidate after the start value, no candidate is newer, every earlier candidate is strictly older (first among equals); holding nothing means no candidate is after the start value |
| `Newest.LatestCharacterized` | cmd/cli/operations/retrieve_savepoint.go:96-109 | both directions: the scan holds `i` iff `i` is the newest entry, and holds nothing iff no candidate is after the start value |
| `S3Resolver.RetrieveLatestSavepointS3` | cmd/cli/operations/retrieve_savepoint.go:33-80 | the S3 resolver (configuration error, one listing request built from the URL, single pass over the objects) returns `ResolveS3` |
| `S3Resolver.ListingFailure` | cmd/cli/operations/retrieve_savepoint.go:51-68 | a failed listing yields the error `listing S3 objects: <cause>` and no result |
| `S3Resolver.NewestMetadataObject` | cmd/cli/operations/retrieve_savepoint.go:48-79 | a successful listing never errors; the result is `""` iff no `_metadata` object is after the zero time; otherwise it is the rendered URL of the newest `_metadata` object, the first listed among equals |
| `S3Resolver.NoMetadataIsEmptyResult` | cmd/cli/operations/retrieve_savepoint.go:70-79 | an empty listing, or one with no key ending in `_metadata`, gives `""` and no error |
| `S3Resolver.ResultKeepsSchemeAndHost` | cmd/cli/operations/retrieve_savepoint.go:74 | the chosen URL is the zero URL or has the input's scheme and host and a `_metadata` key as path; for an S3 scheme, a host and a relative key it renders as `scheme://host/key` |
| `LocalResolver.RetrieveLatestSavepointLocal` | cmd/cli/operations/retrieve_savepoint.go:82-112 | the local resolver (trim, list, empty check, stat each entry aborting on failure, keep the strictly newest) returns `ResolveLocal` |
| `LocalResolver.StatAll` | cmd/cli/operations/retrieve_savepoint.go:98-103 | when all stats succeed there is one time per listed entry |
| `LocalResolver.StatAllStopsAt` | cmd/cli/operations/retrieve_savepoint.go:100-103 | once entry `i` fails after earlier successes, every longer scan fails with that entry's error |
| `LocalResolver.StatAllSpec` | cmd/cli/operations/retrieve_savepoint.go:98-104 | the stats succeed iff every entry stats, giving each entry's own time; otherwise the error is that of the first entry that fails |
| `LocalResolver.TrimDirStripsOne` | cmd/cli/operations/retrieve_savepoint.go:83-85 | exactly one trailing `/` is stripped: `d/` lists `d` (so `d//` lists `d/`); a directory without one is unchanged |
| `LocalResolver.TrailingSlashIgnored` | cmd/cli/operations/retrieve_savepoint.go:83-85 | `d/` and `d` resolve identically when `d` has no trailing `/` |
| `LocalResolver.ListingOutcomes` | cmd/cli/operations/retrieve_savepoint.go:87-94 | a listing error is returned unchanged; an empty listing is the error naming the trimmed directory |
| `LocalResolver.StatFailureAborts` | cmd/cli/operations/retrieve_savepoint.go:96-103 | when entry `i` is the first whose stat fails, the call fails with exactly that error, whatever succeeded before |
| `LocalResolver.NewestEntry` | cmd/cli/operations/retrieve_savepoint.go:96-111 | when every stat succeeds the call succeeds; the result is `""` iff no time is after 0, otherwise `dir/name` of the newest entry, the first listed among equals |
| `LocalResolver.ThreeEntries` | cmd/cli/operations/retrieve_savepoint.go:82-112 | entries a, b, c modified at 100, 300, 200 under `/data/` resolve to `/data/b` |

## Left out

- AWS configuration loading and the listing request are collaborators. Only their outcomes are inputs: the configuration error and the listing result.
- Logging and the classification of the listing error (no such bucket, or another failure) are side effects. They do not change the returned value, so they are left out.
- Pagination is not modelled. The source sends one unpaginated request, so the model's listing is everything that one response returns.
- `url.Parse` is an input function. Its escaping, the lower-casing of the scheme and its error cases are not modelled.
- `Location.Render`: does not model `url.URL.String()`'s escaping, user info, opaque part, query and fragment. It also leaves out the `./` rule for a colon in a scheme-less path. That rule cannot apply here, because every URL rendered has an S3 scheme or is the zero URL.
- `time.Time` is an integer timestamp, and `ModTime().Unix()` as `int64` is unbounded. Only the order of timestamps matters.
- `FileSystem.readDir` may return names in any order. `afero.ReadDir` sorts entries by name, so "the first listed among equal times" is then the entry with the smallest name; the model covers every order and does not assume the sort.
- Nil `Key` or `LastModified` pointers in a listing response are not modelled: a well-formed response always has both.
- `context.Background()` and concurrency are not modelled. The call is synchronous.
