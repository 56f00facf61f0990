/** workflow_seg_map: per order, -1 while a retry runs, n while n segments run. */
module SegmentMap {

  predicate InRetry(segs: map<int, int>, wfiid: int) {
    wfiid in segs && segs[wfiid] < 0
  }

  predicate InProgress(segs: map<int, int>, wfiid: int) {
    wfiid in segs && segs[wfiid] != 0
  }

  function Grab(segs: map<int, int>, wfiid: int): map<int, int> {
    segs[wfiid := if wfiid in segs then segs[wfiid] + 1 else 1]
  }

  function Release(segs: map<int, int>, wfiid: int): map<int, int> {
    if wfiid !in segs then segs
    else if segs[wfiid] - 1 == 0 then segs - {wfiid}
    else segs[wfiid := segs[wfiid] - 1]
  }

  function StartRetry(segs: map<int, int>, wfiid: int): map<int, int> {
    segs[wfiid := -1]
  }

  function EndRetry(segs: map<int, int>, wfiid: int): map<int, int> {
    segs - {wfiid}
  }

  /** The map states exactly who holds the order: nobody, one retry and no segment, or
      some segments and no retry. */
  ghost predicate Arbitrates(segs: map<int, int>, segments: multiset<int>, retries: multiset<int>) {
    && (forall w :: w in segs <==> w in segments || w in retries)
    && (forall w :: w in segs ==>
          || (segs[w] == -1 && retries[w] == 1 && segments[w] == 0)
          || (segs[w] == segments[w] && retries[w] == 0))
  }

  lemma GrabArbitrates(segs: map<int, int>, segments: multiset<int>, retries: multiset<int>, w: int)
    requires Arbitrates(segs, segments, retries) && !InRetry(segs, w)
    ensures Arbitrates(Grab(segs, w), segments + multiset{w}, retries)
  {
  }

  lemma ReleaseArbitrates(segs: map<int, int>, segments: multiset<int>, retries: multiset<int>, w: int)
    requires Arbitrates(segs, segments, retries) && w in segments
    ensures w in segs && Arbitrates(Release(segs, w), segments - multiset{w}, retries)
  {
  }

  lemma StartRetryArbitrates(segs: map<int, int>, segments: multiset<int>, retries: multiset<int>, w: int)
    requires Arbitrates(segs, segments, retries) && !InProgress(segs, w)
    ensures Arbitrates(StartRetry(segs, w), segments, retries + multiset{w})
  {
  }

  lemma EndRetryArbitrates(segs: map<int, int>, segments: multiset<int>, retries: multiset<int>, w: int)
    requires Arbitrates(segs, segments, retries) && w in retries
    ensures w in segs && segs[w] == -1 && Arbitrates(EndRetry(segs, w), segments, retries - multiset{w})
  {
  }
}
