/**
 * `retrieveLatestSavepointLocal`: list a directory, stat every entry in
 * listing order, and return the path of the most recently modified one.
 */
module LocalResolver {
  import opened Wrappers
  import opened Strings
  import opened Newest

  /**
   * The filesystem collaborator: the names a directory lists, and the
   * modification time (Unix seconds) a path stats to.
   */
  datatype FileSystem = FileSystem(
    readDir: string -> Result<seq<string>>,
    stat: string -> Result<int>)

  const NoSavepointsMessage := "No savepoints present in directory: "

  /** The directory actually listed: one trailing '/' is removed. */
  function TrimDir(dir: string): string {
    if HasSuffix(dir, "/") then TrimSuffix(dir, "/") else dir
  }

  /** The path of entry `name` of directory `dir`. */
  function EntryPath(dir: string, name: string): string {
    dir + "/" + name
  }

  /**
   * Stats the entries of `dir` in listing order: their modification times, or
   * the error of the first stat that fails.
   */
  function StatAll(fs: FileSystem, dir: string, names: seq<string>): (r: Result<seq<int>>)
    ensures r.Ok? ==> |r.value| == |names|
  {
    if names == [] then Ok([])
    else
      match StatAll(fs, dir, names[..|names| - 1])
      case Err(e) => Err(e)
      case Ok(times) =>
        match fs.stat(EntryPath(dir, names[|names| - 1]))
        case Err(e) => Err(e)
        case Ok(t) => Ok(times + [t])
  }

  /**
   * What the scan sees: every directory entry is a candidate.
   * The ensures only expose the elements for the proofs; they are not a specification.
   */
  function Stamps(times: seq<int>): (es: seq<Entry>)
    ensures |es| == |times|
    ensures forall i :: 0 <= i < |times| ==> es[i] == Entry(true, times[i])
  {
    seq(|times|, i requires 0 <= i < |times| => Entry(true, times[i]))
  }

  /** The path a scan holds after choosing `best`, or "". */
  function PathOf(dir: string, names: seq<string>, best: Option<nat>): string {
    if best.Some? && best.value < |names| then EntryPath(dir, names[best.value]) else ""
  }

  /** What `retrieveLatestSavepointLocal` returns for `dir`. */
  function ResolveLocal(dir: string, fs: FileSystem): Result<string> {
    var d := TrimDir(dir);
    match fs.readDir(d)
    case Err(e) => Err(e)
    case Ok(names) =>
      if |names| == 0 then Err(NoSavepointsMessage + d)
      else
        match StatAll(fs, d, names)
        case Err(e) => Err(e)
        case Ok(times) => Ok(PathOf(d, names, Latest(Stamps(times))))
  }

  /** Once the stats before entry `i` succeeded and entry `i` fails, the whole listing fails with that error. */
  lemma {:induction false} StatAllStopsAt(fs: FileSystem, dir: string, names: seq<string>, i: nat, k: nat)
    requires i < k <= |names|
    requires StatAll(fs, dir, names[..i]).Ok?
    requires fs.stat(EntryPath(dir, names[i])).Err?
    ensures StatAll(fs, dir, names[..k]) == Err(fs.stat(EntryPath(dir, names[i])).error)
    decreases k
  {
    assert names[..k][..k - 1] == names[..k - 1];
    if k > i + 1 {
      StatAllStopsAt(fs, dir, names, i, k - 1);
    }
  }

  /** The resolver itself: the listing, then one stat per entry, aborting at the first failure. */
  method RetrieveLatestSavepointLocal(dir: string, fs: FileSystem) returns (r: Result<string>)
    ensures r == ResolveLocal(dir, fs)
  {
    var d := dir;
    if HasSuffix(d, "/") {
      d := TrimSuffix(d, "/");
    }

    var files := fs.readDir(d);
    if files.Err? {
      return Err(files.error);
    }
    var names := files.value;
    if |names| == 0 {
      return Err(NoSavepointsMessage + d);
    }

    var newestFile := "";
    var newestTime := Start;
    ghost var times: seq<int> := [];
    for i := 0 to |names|
      invariant StatAll(fs, d, names[..i]) == Ok(times)
      invariant newestTime == BestStamp(Stamps(times), Latest(Stamps(times)))
      invariant newestFile == PathOf(d, names, Latest(Stamps(times)))
    {
      assert names[..i + 1][..i] == names[..i];
      var filePath := d + "/" + names[i];
      var fi := fs.stat(filePath);
      if fi.Err? {
        StatAllStopsAt(fs, d, names, i, |names|);
        assert names[..|names|] == names;
        return Err(fi.error);
      }
      var currTime := fi.value;
      if currTime > newestTime {
        newestTime := currTime;
        newestFile := filePath;
      }
      assert Stamps(times + [currTime])[..i] == Stamps(times);
      times := times + [currTime];
    }
    assert names[..|names|] == names;
    return Ok(newestFile);
  }

  /** Exactly one trailing '/' is removed: `d/` lists `d`, and `d//` lists `d/`. */
  lemma TrimDirStripsOne(d: string)
    ensures TrimDir(d + "/") == d
    ensures !HasSuffix(d, "/") ==> TrimDir(d) == d
  {
    assert (d + "/")[..|d|] == d;
  }

  /** A trailing '/' on a directory without one does not change the result. */
  lemma TrailingSlashIgnored(dir: string, fs: FileSystem)
    requires !HasSuffix(dir, "/")
    ensures ResolveLocal(dir + "/", fs) == ResolveLocal(dir, fs)
  {
    TrimDirStripsOne(dir);
  }

  /**
   * Before any stat: a listing error is returned as it is, and an empty
   * listing is an error naming the (trimmed) directory.
   */
  lemma ListingOutcomes(dir: string, fs: FileSystem)
    ensures fs.readDir(TrimDir(dir)).Err? ==> ResolveLocal(dir, fs) == Err(fs.readDir(TrimDir(dir)).error)
    ensures fs.readDir(TrimDir(dir)) == Ok([]) ==>
      ResolveLocal(dir, fs) == Err("No savepoints present in directory: " + TrimDir(dir))
  {
  }

  /**
   * The stats all succeed exactly when every entry stats successfully, and then
   * give each entry's time; otherwise the error is that of the first entry
   * whose stat fails.
   */
  lemma {:induction false} StatAllSpec(fs: FileSystem, dir: string, names: seq<string>)
    ensures StatAll(fs, dir, names).Ok? <==>
      forall i :: 0 <= i < |names| ==> fs.stat(EntryPath(dir, names[i])).Ok?
    ensures StatAll(fs, dir, names).Ok? ==>
      forall i :: 0 <= i < |names| ==> StatAll(fs, dir, names).value[i] == fs.stat(EntryPath(dir, names[i])).value
    ensures StatAll(fs, dir, names).Err? ==>
      exists i :: && 0 <= i < |names|
                  && (forall j :: 0 <= j < i ==> fs.stat(EntryPath(dir, names[j])).Ok?)
                  && fs.stat(EntryPath(dir, names[i])) == Err(StatAll(fs, dir, names).error)
  {
    if names != [] {
      var n := |names| - 1;
      var p := names[..n];
      StatAllSpec(fs, dir, p);
      assert forall j :: 0 <= j < n ==> p[j] == names[j];
      match StatAll(fs, dir, p)
      case Err(e) =>
        var i :| && 0 <= i < |p|
                 && (forall j :: 0 <= j < i ==> fs.stat(EntryPath(dir, p[j])).Ok?)
                 && fs.stat(EntryPath(dir, p[i])) == Err(e);
        assert fs.stat(EntryPath(dir, names[i])) == Err(e);
      case Ok(times) =>
        match fs.stat(EntryPath(dir, names[n]))
        case Err(e) =>
          assert fs.stat(EntryPath(dir, names[n])) == Err(e);
        case Ok(t) =>
    }
  }

  /** If entry `i` is the first whose stat fails, the call fails with that error, whatever succeeded before. */
  lemma StatFailureAborts(dir: string, fs: FileSystem, names: seq<string>, i: nat)
    requires fs.readDir(TrimDir(dir)) == Ok(names)
    requires i < |names|
    requires forall j :: 0 <= j < i ==> fs.stat(EntryPath(TrimDir(dir), names[j])).Ok?
    requires fs.stat(EntryPath(TrimDir(dir), names[i])).Err?
    ensures ResolveLocal(dir, fs) == Err(fs.stat(EntryPath(TrimDir(dir), names[i])).error)
  {
    var d := TrimDir(dir);
    var p := names[..i];
    StatAllSpec(fs, d, p);
    assert forall j :: 0 <= j < i ==> p[j] == names[j];
    StatAllStopsAt(fs, d, names, i, |names|);
    assert names[..|names|] == names;
  }

  /**
   * When every stat succeeds, the call succeeds. The result is "" exactly when
   * no entry is modified after Unix time 0; otherwise it is `dir/name` for the
   * newest entry, the first listed among equal times.
   */
  lemma NewestEntry(dir: string, fs: FileSystem, names: seq<string>, times: seq<int>)
    requires fs.readDir(TrimDir(dir)) == Ok(names)
    requires names != []
    requires StatAll(fs, TrimDir(dir), names) == Ok(times)
    ensures ResolveLocal(dir, fs).Ok?
    ensures ResolveLocal(dir, fs).value == "" <==> forall j :: 0 <= j < |times| ==> times[j] <= Start
    ensures forall i :: IsNewest(Stamps(times), i) ==>
      ResolveLocal(dir, fs).value == EntryPath(TrimDir(dir), names[i])
    ensures ResolveLocal(dir, fs).value != "" ==>
      exists i :: IsNewest(Stamps(times), i) && ResolveLocal(dir, fs).value == EntryPath(TrimDir(dir), names[i])
  {
    var es := Stamps(times);
    LatestCharacterized(es);
    match Latest(es)
    case None =>
    case Some(i) =>
      assert EntryPath(TrimDir(dir), names[i]) != "";
  }

  /** Entries a, b and c modified at 100, 300 and 200: `/data/` resolves to `/data/b`. */
  lemma {:induction false} ThreeEntries(fs: FileSystem)
    requires fs.readDir("/data") == Ok(["a", "b", "c"])
    requires fs.stat("/data/a") == Ok(100)
    requires fs.stat("/data/b") == Ok(300)
    requires fs.stat("/data/c") == Ok(200)
    ensures ResolveLocal("/data/", fs) == Ok("/data/b")
  {
    TrimDirStripsOne("/data");
    assert EntryPath("/data", "a") == "/data/a";
    assert EntryPath("/data", "b") == "/data/b";
    assert EntryPath("/data", "c") == "/data/c";
    var n1: seq<string>, n2: seq<string>, n3: seq<string> := ["a"], ["a", "b"], ["a", "b", "c"];
    assert n1[..0] == [] && n2[..1] == n1 && n3[..2] == n2;
    assert StatAll(fs, "/data", n1) == Ok([] + [100]);
    assert [] + [100] == [100] && [100] + [300] == [100, 300] && [100, 300] + [200] == [100, 300, 200];
    assert StatAll(fs, "/data", n2) == Ok([100] + [300]);
    assert StatAll(fs, "/data", n3) == Ok([100, 300] + [200]);
    var es := Stamps([100, 300, 200]);
    assert es == [Entry(true, 100), Entry(true, 300), Entry(true, 200)];
    assert es[..2][..1] == es[..1] && es[..3][..2] == es[..2] && es[..3] == es;
    assert es[..1][..0] == [];
    assert Latest(es[..1]) == Some(0);
    assert Latest(es[..2]) == Some(1);
    assert Latest(es) == Some(1);
    assert PathOf("/data", n3, Some(1)) == "/data/b";
    assert "/data" + "/" == "/data/";
    assert TrimDir("/data/") == "/data";
    assert fs.readDir("/data") == Ok(n3);
  }
}
