/**
 * The selection rule both resolvers share: scan a listing in order, keep the
 * first candidate whose timestamp is strictly after the best seen so far,
 * starting from a best of `Start`.
 */
module Newest {
  import opened Wrappers

  /** One listed entry as a scan sees it: whether it may be chosen, and its timestamp. */
  datatype Entry = Entry(candidate: bool, stamp: int)

  /**
   * The best-so-far timestamp a scan starts from: the zero `time.Time` for
   * object storage, Unix time 0 for the local filesystem.
   */
  const Start: int := 0

  /** The timestamp a scan is holding after choosing `best` (or nothing). */
  function BestStamp(s: seq<Entry>, best: Option<nat>): int {
    if best.Some? && best.value < |s| then s[best.value].stamp else Start
  }

  /** Index of the entry a left-to-right scan of `s` ends up holding, or None. */
  function Latest(s: seq<Entry>): (r: Option<nat>)
    ensures r.Some? ==> r.value < |s|
  {
    if s == [] then None
    else
      var best := Latest(s[..|s| - 1]);
      var last := s[|s| - 1];
      if last.candidate && last.stamp > BestStamp(s, best) then Some(|s| - 1) else best
  }

  /**
   * Entry `i` is the newest: a candidate after `Start`, not older than any
   * candidate, and strictly newer than every candidate listed before it.
   */
  ghost predicate IsNewest(s: seq<Entry>, i: int) {
    && 0 <= i < |s|
    && s[i].candidate
    && s[i].stamp > Start
    && (forall j :: 0 <= j < |s| && s[j].candidate ==> s[j].stamp <= s[i].stamp)
    && (forall j :: 0 <= j < i && s[j].candidate ==> s[j].stamp < s[i].stamp)
  }

  /** No candidate is after `Start`. */
  ghost predicate NoneNewer(s: seq<Entry>) {
    forall j :: 0 <= j < |s| && s[j].candidate ==> s[j].stamp <= Start
  }

  /** What the scan holds is the newest entry, and it holds nothing only when no candidate is after `Start`. */
  lemma {:induction false} LatestSound(s: seq<Entry>)
    ensures Latest(s).Some? ==> IsNewest(s, Latest(s).value)
    ensures Latest(s).None? ==> NoneNewer(s)
  {
    if s != [] {
      var p := s[..|s| - 1];
      LatestSound(p);
      assert forall j :: 0 <= j < |p| ==> p[j] == s[j];
    }
  }

  /** `Latest` is exactly the newest entry: both directions. */
  lemma {:induction false} LatestCharacterized(s: seq<Entry>)
    ensures forall i: nat :: Latest(s) == Some(i) <==> IsNewest(s, i)
    ensures Latest(s) == None <==> NoneNewer(s)
  {
    LatestSound(s);
  }
}
