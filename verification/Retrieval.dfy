/** Scoring candidates on several workers, ranking them, and choosing a balanced selection of notes and chunks. */
module Retrieval {

  import opened Text

  datatype Source = NoteSource(id: nat) | ChunkSource(id: nat)

  datatype Candidate = Candidate(source: Source, fused: real, lexical: real, fingerprint: string, document: Option<nat>)

  datatype Profile = Profile(maxResults: int, maxChunksPerDocument: int)

  // ---- Scoring on several workers

  /** What the scorer makes of the positions from lo up to hi, in order, without the ones it turns down. */
  function Scored<C>(scorer: nat -> Option<C>, lo: nat, hi: nat): seq<C>
    requires lo <= hi
    decreases hi - lo
  {
    if lo == hi then []
    else Scored(scorer, lo, hi - 1) + if scorer(hi - 1).Some? then [scorer(hi - 1).value] else []
  }

  function Start(count: nat, bucketSize: nat, worker: nat): nat {
    if worker * bucketSize < count then worker * bucketSize else count
  }

  lemma StartsGrow(count: nat, bucketSize: nat, worker: nat)
    ensures Start(count, bucketSize, worker) <= Start(count, bucketSize, worker + 1)
    ensures Start(count, bucketSize, worker + 1) ==
      if Start(count, bucketSize, worker) + bucketSize < count then Start(count, bucketSize, worker) + bucketSize
          else count
  {
  }

  function Bucket<C>(scorer: nat -> Option<C>, count: nat, bucketSize: nat, worker: nat): seq<C> {
    StartsGrow(count, bucketSize, worker);
    Scored(scorer, Start(count, bucketSize, worker), Start(count, bucketSize, worker + 1))
  }

  /** The buckets as they are appended when the workers get hold of the lock in the given order. */
  function Merged<C>(scorer: nat -> Option<C>, count: nat, bucketSize: nat, order: seq<nat>): seq<C> {
    if order == [] then []
    else Merged(scorer, count, bucketSize, order[..|order| - 1]) + Bucket(scorer, count, bucketSize, order[|order| - 1])
  }

  function UpTo(n: nat): (r: seq<nat>)
    ensures |r| == n
  {
    seq(n, i requires 0 <= i < n => i)
  }

  lemma {:induction false} ScoredParts<C>(scorer: nat -> Option<C>, lo: nat, mid: nat, hi: nat)
    requires lo <= mid <= hi
    ensures Scored(scorer, lo, hi) == Scored(scorer, lo, mid) + Scored(scorer, mid, hi)
    decreases hi - mid
  {
    if mid < hi {
      ScoredParts(scorer, lo, mid, hi - 1);
    }
  }

  /** The first n buckets, one after the other, are the scores of what they cover: no position twice, none left out. */
  lemma {:induction false} BucketsTile<C>(scorer: nat -> Option<C>, count: nat, bucketSize: nat, n: nat)
    ensures Merged(scorer, count, bucketSize, UpTo(n)) == Scored(scorer, 0, Start(count, bucketSize, n))
  {
    if n > 0 {
      assert UpTo(n)[..n - 1] == UpTo(n - 1);
      BucketsTile(scorer, count, bucketSize, n - 1);
      StartsGrow(count, bucketSize, n - 1);
      ScoredParts(scorer, 0, Start(count, bucketSize, n - 1), Start(count, bucketSize, n));
    }
  }

  lemma WithoutOne<T>(s: seq<T>, k: nat)
    requires k < |s|
    ensures multiset(s[..k] + s[k + 1..]) == multiset(s) - multiset{s[k]}
  {
    assert s == s[..k] + [s[k]] + s[k + 1..];
  }

  lemma MergedLast<C(!new)>(scorer: nat -> Option<C>, count: nat, bucketSize: nat, order: seq<nat>)
    requires order != []
    ensures multiset(Merged(scorer, count, bucketSize, order))
         == multiset(Merged(scorer, count, bucketSize, order[..|order| - 1])) +
             multiset(Bucket(scorer, count, bucketSize, order[|order| - 1]))
  {
    hide Bucket;
  }

  lemma {:induction false} MergedWithout<C(!new)>(scorer: nat -> Option<C>, count: nat, bucketSize: nat,
          order: seq<nat>, k: nat)
    requires k < |order|
    ensures multiset(Merged(scorer, count, bucketSize, order))
         == multiset(Merged(scorer, count, bucketSize, order[..k] + order[k + 1..])) +
             multiset(Bucket(scorer, count, bucketSize, order[k]))
  {
    hide Bucket;
    hide Merged;
    var n := |order| - 1;
    var without := order[..k] + order[k + 1..];
    MergedLast(scorer, count, bucketSize, order);
    if k == n {
      assert without == order[..n];
    } else {
      MergedWithout(scorer, count, bucketSize, order[..n], k);
      assert without[..n - 1] == order[..n][..k] + order[..n][k + 1..] && without[n - 1] == order[n];
      MergedLast(scorer, count, bucketSize, without);
    }
  }

  lemma {:induction false} AnyOrderMergesTheSame<C(!new)>(scorer: nat -> Option<C>, count: nat, bucketSize: nat,
          order: seq<nat>, other: seq<nat>)
    requires multiset(order) == multiset(other)
    ensures multiset(Merged(scorer, count, bucketSize, order)) == multiset(Merged(scorer, count, bucketSize, other))
    decreases |order|
  {
    assert |order| == |multiset(order)| == |multiset(other)| == |other|;
    if order != [] {
      var n := |order| - 1;
      assert order[n] in multiset(order);
      assert order[n] in other;
      var k: nat :| k < |other| && other[k] == order[n];
      var without := other[..k] + other[k + 1..];
      WithoutOne(order, n);
      WithoutOne(other, k);
      assert order[..n] + order[n + 1..] == order[..n];
      AnyOrderMergesTheSame(scorer, count, bucketSize, order[..n], without);
      MergedWithout(scorer, count, bucketSize, other, k);
    }
  }

  function WorkerCount(count: nat, cpuCount: int): nat {
    var cpus := if cpuCount > 1 then cpuCount else 1;
    if cpus < count then cpus else count
  }

  lemma BucketsCoverAll(count: nat, workers: nat)
    requires workers > 0
    ensures Start(count, (count + workers - 1) / workers, workers) == count
  {
    var b := (count + workers - 1) / workers;
    assert (count + workers - 1) == b * workers + (count + workers - 1) % workers;
    assert workers * b >= count;
  }

  /** For every number of processors and every order in which the workers append, the result has the elements of
      the sequential pass, each as often. */
  method ParallelScoreBatch<C(!new, ==)>(count: nat, cpuCount: int, scorer: nat -> Option<C>, order: seq<nat>)
    returns (merged: seq<C>)
    requires multiset(order) == multiset(UpTo(WorkerCount(count, cpuCount)))
    ensures multiset(merged) == multiset(Scored(scorer, 0, count))
  {
    if count == 0 {
      return [];
    }
    var workerCount := WorkerCount(count, cpuCount);
    if workerCount <= 1 {
      merged := ScoreRange(scorer, 0, count);
      return;
    }
    var bucketSize := (count + workerCount - 1) / workerCount;
    merged := [];
    for i := 0 to |order|
      invariant merged == Merged(scorer, count, bucketSize, order[..i])
    {
      assert order[..i + 1][..i] == order[..i];
      var start := order[i] * bucketSize;
      StartsGrow(count, bucketSize, order[i]);
      if start >= count {
        continue;
      }
      var end := if count < start + bucketSize then count else start + bucketSize;
      var local := ScoreRange(scorer, start, end);
      merged := merged + local;
    }
    assert order[..|order|] == order;
    AnyOrderMergesTheSame(scorer, count, bucketSize, order, UpTo(workerCount));
    BucketsTile(scorer, count, bucketSize, workerCount);
    BucketsCoverAll(count, workerCount);
  }

  method ScoreRange<C>(scorer: nat -> Option<C>, start: nat, end: nat) returns (local: seq<C>)
    requires start <= end
    ensures local == Scored(scorer, start, end)
  {
    local := [];
    for index := start to end
      invariant local == Scored(scorer, start, index)
    {
      var candidate := scorer(index);
      if candidate.Some? {
        local := local + [candidate.value];
      }
    }
  }

  // ---- Ranking

  type Score = (real, real)

  /** The order of the sort: by fused score, then by lexical score, falling. */
  predicate RanksNotBehind(x: Score, y: Score) {
    x.0 > y.0 || (x.0 == y.0 && x.1 >= y.1)
  }

  predicate IsFalling(s: seq<Score>) {
    forall i, j :: 0 <= i < j < |s| ==> RanksNotBehind(s[i], s[j])
  }

  function Scores(cs: seq<Candidate>): (r: seq<Score>)
    ensures |r| == |cs|
  {
    if cs == [] then []
    else
      var c := cs[|cs| - 1];
      Scores(cs[..|cs| - 1]) + [(c.fused, c.lexical)]
  }

  /** What a sort may return: the same candidates, with falling scores. */
  ghost predicate IsRanked(ranked: seq<Candidate>, candidates: seq<Candidate>) {
    multiset(ranked) == multiset(candidates) && IsFalling(Scores(ranked))
  }

  lemma {:induction false} ScoresWithout(cs: seq<Candidate>, k: nat)
    requires k < |cs|
    ensures multiset(Scores(cs)) == multiset(Scores(cs[..k] + cs[k + 1..])) + multiset{(cs[k].fused, cs[k].lexical)}
  {
    hide Scores;
    var n := |cs| - 1;
    var without := cs[..k] + cs[k + 1..];
    ScoresOfLast(cs);
    if k == n {
      assert without == cs[..n];
    } else {
      ScoresWithout(cs[..n], k);
      assert without[..n - 1] == cs[..n][..k] + cs[..n][k + 1..] && without[n - 1] == cs[n];
      ScoresOfLast(without);
    }
  }

  lemma ScoresOfLast(cs: seq<Candidate>)
    requires cs != []
    ensures var c := cs[|cs| - 1];
            multiset(Scores(cs)) == multiset(Scores(cs[..|cs| - 1])) + multiset{(c.fused, c.lexical)}
  {
  }

  lemma {:induction false} SameCandidatesSameScores(cs: seq<Candidate>, ds: seq<Candidate>)
    requires multiset(cs) == multiset(ds)
    ensures multiset(Scores(cs)) == multiset(Scores(ds))
    decreases |cs|
  {
    assert |cs| == |multiset(cs)| == |multiset(ds)| == |ds|;
    if cs != [] {
      var n := |cs| - 1;
      assert cs[n] in multiset(ds);
      var k: nat :| k < |ds| && ds[k] == cs[n];
      WithoutOne(cs, n);
      WithoutOne(ds, k);
      assert cs[..n] + cs[n + 1..] == cs[..n];
      SameCandidatesSameScores(cs[..n], ds[..k] + ds[k + 1..]);
      ScoresWithout(ds, k);
    }
  }

  lemma {:induction false} FallingIsDetermined(s: seq<Score>, t: seq<Score>)
    requires multiset(s) == multiset(t) && IsFalling(s) && IsFalling(t)
    ensures s == t
    decreases |s|
  {
    assert |s| == |multiset(s)| == |multiset(t)| == |t|;
    if s != [] {
      var n := |s| - 1;
      LastIsLowest(s, t);
      LastIsLowest(t, s);
      assert s[n] == t[n];
      FallingPrefix(s);
      FallingPrefix(t);
      hide RanksNotBehind;
      hide IsFalling;
      WithoutOne(s, n);
      WithoutOne(t, n);
      assert s[..n] + s[n + 1..] == s[..n] && t[..n] + t[n + 1..] == t[..n];
      FallingIsDetermined(s[..n], t[..n]);
      assert s == s[..n] + [s[n]] && t == t[..n] + [t[n]];
    }
  }

  lemma FallingPrefix(s: seq<Score>)
    requires s != [] && IsFalling(s)
    ensures IsFalling(s[..|s| - 1])
  {
  }

  lemma LastIsLowest(s: seq<Score>, t: seq<Score>)
    requires multiset(s) == multiset(t) && IsFalling(t) && s != [] && |s| == |t|
    ensures RanksNotBehind(s[|s| - 1], t[|t| - 1])
  {
    var last := s[|s| - 1];
    assert last in multiset(t);
    var i: nat :| i < |t| && t[i] == last;
  }

  lemma {:induction false} ScoresOfPrefix(cs: seq<Candidate>, k: nat)
    requires k <= |cs|
    ensures Scores(cs[..k]) == Scores(cs)[..k]
  {
    if k < |cs| {
      ScoresOfPrefix(cs[..|cs| - 1], k);
      assert cs[..|cs| - 1][..k] == cs[..k];
    } else {
      assert cs[..k] == cs;
    }
  }

  /** However the scoring was scheduled and whatever the sort does with ties: the ranked sequence of score pairs,
      and that of every prefix of it, is the same. */
  lemma {:induction false} RankedScoresAreDetermined(ranked: seq<Candidate>, other: seq<Candidate>,
          merged: seq<Candidate>, otherMerged: seq<Candidate>, k: nat)
    requires IsRanked(ranked, merged) && IsRanked(other, otherMerged) && multiset(merged) == multiset(otherMerged)
    ensures Scores(ranked) == Scores(other)
    ensures k <= |ranked| ==> k <= |other| && Scores(ranked[..k]) == Scores(other[..k])
  {
    SameCandidatesSameScores(ranked, other);
    FallingIsDetermined(Scores(ranked), Scores(other));
    if k <= |ranked| {
      ScoresOfPrefix(ranked, k);
      ScoresOfPrefix(other, k);
    }
  }

  /** Which candidate is cut off by a limit may still depend on the schedule, when scores are equal. */
  lemma TiesDependOnTheSchedule() returns (ranked: seq<Candidate>, other: seq<Candidate>)
    ensures IsRanked(ranked, ranked) && IsRanked(other, ranked) && |ranked| > 1 && ranked[0] != other[0]
  {
    var x, y := Candidate(NoteSource(0), 1.0, 0.0, "x", None), Candidate(NoteSource(1), 1.0, 0.0, "y", None);
    ranked, other := [x, y], [y, x];
    assert [x, y][..1] == [x] && [y, x][..1] == [y] && [x][..0] == [] && [y][..0] == [];
  }

  // ---- The balanced selection

  predicate SameSource(x: Candidate, y: Candidate) {
    x.source == y.source
  }

  function ChunksOf(selected: seq<Candidate>, document: nat): nat {
    if selected == [] then 0
    else
      var c := selected[|selected| - 1];
      ChunksOf(selected[..|selected| - 1], document) + if c.source.ChunkSource? && c.document == Some(document) then 1
          else 0
  }

  predicate HasSource(selected: seq<Candidate>, c: Candidate) {
    exists i :: 0 <= i < |selected| && SameSource(selected[i], c)
  }

  predicate HasFingerprint(selected: seq<Candidate>, f: string) {
    exists i :: 0 <= i < |selected| && selected[i].fingerprint == f
  }

  /** Why a candidate is passed over. */
  predicate IsBlocked(selected: seq<Candidate>, c: Candidate, p: Profile) {
    || |selected| >= p.maxResults
    || HasSource(selected, c)
    || HasFingerprint(selected, c.fingerprint)
    || (c.source.ChunkSource? && c.document.Some? && ChunksOf(selected, c.document.value) >= p.maxChunksPerDocument)
  }

  function Filled(selected: seq<Candidate>, cs: seq<Candidate>, p: Profile): seq<Candidate>
    decreases |cs|
  {
    if cs == [] then selected
    else
      var c, before := cs[|cs| - 1], Filled(selected, cs[..|cs| - 1], p);
      if IsBlocked(before, c, p) then before else before + [c]
  }

  function FirstNote(cs: seq<Candidate>, from: nat): (r: Option<nat>)
    requires from <= |cs|
    ensures r.Some? ==> from <= r.value < |cs| && cs[r.value].source.NoteSource?
    ensures forall i :: from <= i < (if r.Some? then r.value else |cs|) ==> cs[i].source.ChunkSource?
    decreases |cs| - from
  {
    if from == |cs| then None else if cs[from].source.NoteSource? then Some(from) else FirstNote(cs, from + 1)
  }

  function FirstChunk(cs: seq<Candidate>, from: nat): (r: Option<nat>)
    requires from <= |cs|
    ensures r.Some? ==> from <= r.value < |cs| && cs[r.value].source.ChunkSource?
    ensures forall i :: from <= i < (if r.Some? then r.value else |cs|) ==> cs[i].source.NoteSource?
    decreases |cs| - from
  {
    if from == |cs| then None else if cs[from].source.ChunkSource? then Some(from) else FirstChunk(cs, from + 1)
  }

  function Gap(x: Candidate, y: Candidate): real {
    if x.fused > y.fused then x.fused - y.fused else y.fused - x.fused
  }

  /** The best note and the best chunk: the note always, the chunk too if it is close behind or before it. */
  function Seeds(cs: seq<Candidate>, p: Profile): seq<Candidate> {
    var n, k := FirstNote(cs, 0), FirstChunk(cs, 0);
    if n.None? then (if k.None? then [] else [cs[k.value]])
    else if k.Some? && Gap(cs[n.value], cs[k.value]) <= 0.18 && 1 < p.maxResults then [cs[n.value], cs[k.value]]
    else [cs[n.value]]
  }

  function Balanced(cs: seq<Candidate>, p: Profile): seq<Candidate> {
    Filled(Seeds(cs, p), cs, p)
  }

  lemma {:induction false} FilledExtends(selected: seq<Candidate>, cs: seq<Candidate>, p: Profile)
    ensures selected <= Filled(selected, cs, p)
    decreases |cs|
  {
    if cs != [] {
      FilledExtends(selected, cs[..|cs| - 1], p);
    }
  }

  lemma {:induction false} ChunksOfPrefix(selected: seq<Candidate>, more: seq<Candidate>, document: nat)
    requires selected <= more
    ensures ChunksOf(selected, document) <= ChunksOf(more, document)
    decreases |more|
  {
    if |selected| < |more| {
      ChunksOfPrefix(selected, more[..|more| - 1], document);
    } else {
      assert selected == more;
    }
  }

  /** A candidate that is blocked stays blocked. */
  lemma BlockedStaysBlocked(selected: seq<Candidate>, more: seq<Candidate>, c: Candidate, p: Profile)
    requires selected <= more && IsBlocked(selected, c, p)
    ensures IsBlocked(more, c, p)
  {
    if HasSource(selected, c) {
      var i :| 0 <= i < |selected| && SameSource(selected[i], c);
      assert SameSource(more[i], c);
    } else if HasFingerprint(selected, c.fingerprint) {
      var i :| 0 <= i < |selected| && selected[i].fingerprint == c.fingerprint;
      assert more[i].fingerprint == c.fingerprint;
    } else if c.document.Some? {
      ChunksOfPrefix(selected, more, c.document.value);
    }
  }

  /** Nothing can be added: in the end every candidate is blocked, by fullness, its source, its fingerprint or the
      quota of its document. */
  lemma {:induction false} FilledIsMaximal(selected: seq<Candidate>, cs: seq<Candidate>, p: Profile)
    ensures forall i :: 0 <= i < |cs| ==> IsBlocked(Filled(selected, cs, p), cs[i], p)
    decreases |cs|
  {
    if cs != [] {
      var c, rest := cs[|cs| - 1], cs[..|cs| - 1];
      var before, after := Filled(selected, rest, p), Filled(selected, cs, p);
      FilledIsMaximal(selected, rest, p);
      forall i | 0 <= i < |cs|
        ensures IsBlocked(after, cs[i], p)
      {
        if i < |cs| - 1 {
          assert rest[i] == cs[i];
          BlockedStaysBlocked(before, after, cs[i], p);
        } else if !IsBlocked(before, c, p) {
          assert SameSource(after[|before|], c);
        }
      }
    }
  }

  function AtLeastOne(n: int): int {
    if n > 1 then n else 1
  }

  /** The limits that a selection keeps; the first `free` entries may share a fingerprint. */
  ghost predicate KeepsLimits(selected: seq<Candidate>, free: nat, p: Profile) {
    && |selected| <= AtLeastOne(p.maxResults)
    && (forall i, j :: 0 <= i < j < |selected| ==> !SameSource(selected[i], selected[j]))
    && (forall i, j :: 0 <= i < j < |selected| && selected[i].fingerprint == selected[j].fingerprint ==> j < free)
    && forall d :: ChunksOf(selected, d) <= AtLeastOne(p.maxChunksPerDocument)
  }

  lemma AddingKeepsLimits(selected: seq<Candidate>, c: Candidate, free: nat, p: Profile)
    requires KeepsLimits(selected, free, p) && !IsBlocked(selected, c, p)
    ensures KeepsLimits(selected + [c], free, p)
  {
    var more := selected + [c];
    assert more[..|selected|] == selected;
    forall d: nat
      ensures ChunksOf(more, d) <= AtLeastOne(p.maxChunksPerDocument)
    {
      assert ChunksOf(selected, d) <= AtLeastOne(p.maxChunksPerDocument);
    }
    forall i, j | 0 <= i < j < |more|
      ensures !SameSource(more[i], more[j])
      ensures more[i].fingerprint == more[j].fingerprint ==> j < free
    {
      if j == |selected| {
        assert !HasSource(selected, c) && !HasFingerprint(selected, c.fingerprint);
      }
    }
  }

  lemma {:induction false} FillingKeepsLimits(selected: seq<Candidate>, cs: seq<Candidate>, free: nat, p: Profile)
    requires KeepsLimits(selected, free, p)
    ensures KeepsLimits(Filled(selected, cs, p), free, p)
    decreases |cs|
  {
    if cs != [] {
      var c, before := cs[|cs| - 1], Filled(selected, cs[..|cs| - 1], p);
      FillingKeepsLimits(selected, cs[..|cs| - 1], free, p);
      if !IsBlocked(before, c, p) {
        AddingKeepsLimits(before, c, free, p);
      }
    }
  }

  lemma {:induction false} FilledComesFrom(selected: seq<Candidate>, cs: seq<Candidate>, p: Profile)
    ensures forall c :: c in Filled(selected, cs, p) ==> c in selected || c in cs
    decreases |cs|
  {
    if cs != [] {
      FilledComesFrom(selected, cs[..|cs| - 1], p);
    }
  }

  /** The selection for all inputs: at most `maxResults` entries and at most `maxChunksPerDocument` chunks of one
      document (but the seeds are never refused, so at least one of each is let in), distinct sources, distinct
      fingerprints but for the two seeds, entries from the candidates only, and nothing that could still be added. */
  lemma BalancedIsBalanced(cs: seq<Candidate>, p: Profile)
    ensures KeepsLimits(Balanced(cs, p), |Seeds(cs, p)|, p) && |Seeds(cs, p)| <= 2
    ensures Seeds(cs, p) <= Balanced(cs, p)
    ensures forall c :: c in Balanced(cs, p) ==> c in cs
    ensures forall i :: 0 <= i < |cs| ==> IsBlocked(Balanced(cs, p), cs[i], p)
  {
    var seeds := Seeds(cs, p);
    SeedsKeepLimits(cs, p);
    FillingKeepsLimits(seeds, cs, |seeds|, p);
    FilledExtends(seeds, cs, p);
    FilledComesFrom(seeds, cs, p);
    FilledIsMaximal(seeds, cs, p);
  }

  lemma SeedsKeepLimits(cs: seq<Candidate>, p: Profile)
    ensures KeepsLimits(Seeds(cs, p), |Seeds(cs, p)|, p)
    ensures forall c :: c in Seeds(cs, p) ==> c in cs
  {
    var seeds := Seeds(cs, p);
    forall d: nat
      ensures ChunksOf(seeds, d) <= 1
    {
      if |seeds| == 2 {
        assert seeds[..1][..0] == [] && seeds[..1][0].source.NoteSource?;
        assert ChunksOf(seeds[..1], d) == 0;
      } else if |seeds| == 1 {
        assert seeds[..0] == [];
      }
    }
  }

  lemma {:induction false} FilledFromTheFront(selected: seq<Candidate>, cs: seq<Candidate>, p: Profile)
    requires cs != []
    ensures Filled(selected, cs, p) ==
        Filled(if IsBlocked(selected, cs[0], p) then selected else selected + [cs[0]], cs[1..], p)
    decreases |cs|
  {
    hide IsBlocked;
    if |cs| == 1 {
      assert cs[..0] == [] && cs[1..] == [];
    } else {
      var rest := cs[..|cs| - 1];
      FilledFromTheFront(selected, rest, p);
      assert rest[1..] == cs[1..][..|cs| - 2] && rest[0] == cs[0];
    }
  }

  lemma {:induction false} BlockedIsNotAdded(selected: seq<Candidate>, cs: seq<Candidate>, c: Candidate, p: Profile)
    requires IsBlocked(selected, c, p) && c !in selected
    ensures c !in Filled(selected, cs, p)
    decreases |cs|
  {
    hide IsBlocked;
    if cs != [] {
      BlockedIsNotAdded(selected, cs[..|cs| - 1], c, p);
      FilledExtends(selected, cs[..|cs| - 1], p);
      BlockedStaysBlocked(selected, Filled(selected, cs[..|cs| - 1], p), c, p);
    }
  }

  lemma BehindALoneSeed(note: Candidate, cs: seq<Candidate>, p: Profile)
    requires cs != [] && cs[0].source.ChunkSource? && note.source.NoteSource?
    ensures cs[0] in Filled([note], cs, p) <==>
      p.maxResults >= 2 && cs[0].fingerprint != note.fingerprint &&
          (cs[0].document.None? || p.maxChunksPerDocument >= 1)
  {
    hide Filled;
    var c, seeds := cs[0], [note];
    FilledFromTheFront(seeds, cs, p);
    assert !HasSource(seeds, c);
    assert HasFingerprint(seeds, c.fingerprint) <==> seeds[0].fingerprint == c.fingerprint;
    assert seeds[..0] == [] && forall d :: ChunksOf(seeds, d) == 0;
    if IsBlocked(seeds, c, p) {
      BlockedIsNotAdded(seeds, cs, c, p);
    } else {
      FilledExtends(seeds + [c], cs[1..], p);
      assert Filled(seeds, cs, p)[1] == c;
    }
  }

  /** When the best candidate gets into the selection: always if it is a note or there is no note; a chunk ahead of
      the best note gets in if there is room for two and it is close to that note in score or, failing that, has a
      fingerprint of its own and its document is allowed a chunk. */
  lemma TopIsSelectedExactly(cs: seq<Candidate>, p: Profile)
    requires cs != []
    ensures cs[0] in Balanced(cs, p) <==>
      var n := FirstNote(cs, 0);
      || n.None? || n.value == 0
      || (p.maxResults >= 2
          && (Gap(cs[n.value], cs[0]) <= 0.18
              || (cs[0].fingerprint != cs[n.value].fingerprint &&
                  (cs[0].document.None? || p.maxChunksPerDocument >= 1))))
  {
    hide Filled;
    hide IsBlocked;
    var n, seeds := FirstNote(cs, 0), Seeds(cs, p);
    FilledExtends(seeds, cs, p);
    if cs[0] in seeds {
      var i :| 0 <= i < |seeds| && seeds[i] == cs[0];
      assert Balanced(cs, p)[i] == cs[0];
    } else {
      assert seeds == [cs[n.value]];
      BehindALoneSeed(cs[n.value], cs, p);
    }
  }

  /** However large the limits are, a chunk far ahead of the only note is dropped when it has the fingerprint of that
      note. */
  lemma DroppedTopExample(chunk: Candidate, note: Candidate, p: Profile)
    requires chunk.source.ChunkSource? && note.source.NoteSource? && chunk.fingerprint == note.fingerprint
    requires chunk.fused > note.fused + 0.18
    ensures IsFalling(Scores([chunk, note])) && chunk !in Balanced([chunk, note], p)
  {
    var cs := [chunk, note];
    assert FirstNote(cs, 0) == Some(1);
    assert cs[..1] == [chunk] && [chunk][..0] == [];
    assert Scores([chunk]) == [(chunk.fused, chunk.lexical)];
    assert Scores(cs) == [(chunk.fused, chunk.lexical), (note.fused, note.lexical)];
    TopIsSelectedExactly(cs, p);
  }

  function Count(counts: map<nat, nat>, d: nat): nat {
    if d in counts then counts[d] else 0
  }

  /** The set and the map that the selection is kept with say what is in it. */
  ghost predicate KeepsBooks(selected: seq<Candidate>, fingerprints: set<string>, counts: map<nat, nat>) {
    && (forall f :: f in fingerprints <==> HasFingerprint(selected, f))
    && forall d :: Count(counts, d) == ChunksOf(selected, d)
  }

  lemma BooksAfterAdding(selected: seq<Candidate>, fingerprints: set<string>, counts: map<nat, nat>, c: Candidate)
    requires KeepsBooks(selected, fingerprints, counts)
    ensures KeepsBooks(selected + [c], fingerprints + {c.fingerprint},
              if c.source.ChunkSource? &&
                  c.document.Some? then counts[c.document.value := Count(counts, c.document.value) + 1] else counts)
  {
    var more := selected + [c];
    assert more[..|selected|] == selected;
    forall f: string
      ensures HasFingerprint(more, f) <==> HasFingerprint(selected, f) || f == c.fingerprint
    {
      if HasFingerprint(selected, f) {
        var i :| 0 <= i < |selected| && selected[i].fingerprint == f;
        assert more[i].fingerprint == f;
      }
      assert more[|selected|].fingerprint == c.fingerprint;
    }
    forall d: nat
      ensures ChunksOf(more, d) == ChunksOf(selected, d) + if c.source.ChunkSource? && c.document == Some(d) then 1
          else 0
    {
    }
  }

  lemma BooksDecide(selected: seq<Candidate>, fingerprints: set<string>, counts: map<nat, nat>, c: Candidate,
      p: Profile)
    requires KeepsBooks(selected, fingerprints, counts)
    ensures IsBlocked(selected, c, p) <==>
      || |selected| >= p.maxResults || HasSource(selected, c) || c.fingerprint in fingerprints
      || (c.source.ChunkSource? && c.document.Some? && Count(counts, c.document.value) >= p.maxChunksPerDocument)
  {
  }

  /** The seeds, with the set and the map that go with them. */
  method SelectSeeds(candidates: seq<Candidate>, p: Profile) returns (selected: seq<Candidate>,
          fingerprints: set<string>, counts: map<nat, nat>)
    ensures selected == Seeds(candidates, p) && KeepsBooks(selected, fingerprints, counts)
  {
    hide FirstNote;
    hide FirstChunk;
    hide KeepsBooks;
    selected, fingerprints, counts := [], {}, map[];
    EmptyBooks();
    var bestNote, bestChunk := FirstNote(candidates, 0), FirstChunk(candidates, 0);
    if bestNote.Some? {
      BooksAfterAdding(selected, fingerprints, counts, candidates[bestNote.value]);
      selected := selected + [candidates[bestNote.value]];
      fingerprints := fingerprints + {candidates[bestNote.value].fingerprint};
    }
    if bestChunk.Some? {
      var chunk := candidates[bestChunk.value];
      BooksAfterAdding(selected, fingerprints, counts, chunk);
      if selected != [] {
        var scoreGap := Gap(selected[0], chunk);
        if scoreGap <= 0.18 && |selected| < p.maxResults {
          selected := selected + [chunk];
          fingerprints := fingerprints + {chunk.fingerprint};
          if chunk.document.Some? {
            counts := counts[chunk.document.value := 1];
          }
        }
      } else {
        selected := selected + [chunk];
        fingerprints := fingerprints + {chunk.fingerprint};
        if chunk.document.Some? {
          counts := counts[chunk.document.value := 1];
        }
      }
    }
  }

  lemma EmptyBooks()
    ensures KeepsBooks([], {}, map[])
  {
  }

  method DiversifyAndBalance(candidates: seq<Candidate>, p: Profile) returns (selected: seq<Candidate>)
    ensures selected == Balanced(candidates, p)
  {
    hide Seeds;
    hide KeepsBooks;
    hide IsBlocked;
    hide HasSource;
    if candidates == [] {
      NothingToSelect(p);
      return [];
    }
    var selectedFingerprints: set<string>, chunkPerDocumentCount: map<nat, nat>;
    selected, selectedFingerprints, chunkPerDocumentCount := SelectSeeds(candidates, p);
    ghost var seeds := selected;
    for i := 0 to |candidates|
      invariant selected == Filled(seeds, candidates[..i], p)
      invariant KeepsBooks(selected, selectedFingerprints, chunkPerDocumentCount)
    {
      assert candidates[..i + 1][..i] == candidates[..i];
      var candidate := candidates[i];
      BooksDecide(selected, selectedFingerprints, chunkPerDocumentCount, candidate, p);
      if |selected| >= p.maxResults {
        continue;
      }
      if HasSource(selected, candidate) {
        continue;
      }
      if candidate.fingerprint in selectedFingerprints {
        continue;
      }
      if candidate.source.ChunkSource? && candidate.document.Some? &&
         Count(chunkPerDocumentCount, candidate.document.value) >= p.maxChunksPerDocument {
        continue;
      }
      BooksAfterAdding(selected, selectedFingerprints, chunkPerDocumentCount, candidate);
      selected := selected + [candidate];
      selectedFingerprints := selectedFingerprints + {candidate.fingerprint};
      if candidate.source.ChunkSource? && candidate.document.Some? {
        var d := candidate.document.value;
        chunkPerDocumentCount := chunkPerDocumentCount[d := Count(chunkPerDocumentCount, d) + 1];
      }
    }
    assert candidates[..|candidates|] == candidates;
  }

  lemma NothingToSelect(p: Profile)
    ensures Balanced([], p) == []
  {
  }

  // ---- What is scored and selected, position by position

  /** Positions in rising order: exactly the ones from lo up to hi that the scorer does not turn down. */
  ghost predicate AreScored<C(!new)>(scorer: nat -> Option<C>, lo: nat, hi: nat, ks: seq<nat>) {
    && (forall j :: 0 <= j < |ks| ==> lo <= ks[j] < hi && scorer(ks[j]).Some?)
    && (forall i, j :: 0 <= i < j < |ks| ==> ks[i] < ks[j])
    && forall k: nat :: lo <= k < hi && scorer(k).Some? ==> k in ks
  }

  /** The scores are those of the positions that the scorer does not turn down, each once and in order. */
  lemma {:induction false} ScoredPositions<C(!new)>(scorer: nat -> Option<C>, lo: nat, hi: nat) returns (ks: seq<nat>)
    requires lo <= hi
    ensures AreScored(scorer, lo, hi, ks) && |ks| == |Scored(scorer, lo, hi)|
    ensures forall j :: 0 <= j < |ks| ==> scorer(ks[j]) == Some(Scored(scorer, lo, hi)[j])
    decreases hi - lo
  {
    if lo == hi {
      ks := [];
    } else {
      var before := ScoredPositions(scorer, lo, hi - 1);
      ks := if scorer(hi - 1).Some? then before + [hi - 1] else before;
      OneMoreScored(scorer, lo, hi, before);
    }
  }

  lemma OneMoreScored<C(!new)>(scorer: nat -> Option<C>, lo: nat, hi: nat, before: seq<nat>)
    requires lo < hi && AreScored(scorer, lo, hi - 1, before)
    ensures AreScored(scorer, lo, hi, if scorer(hi - 1).Some? then before + [hi - 1] else before)
  {
    forall k: nat | lo <= k < hi && scorer(k).Some?
      ensures k in if scorer(hi - 1).Some? then before + [hi - 1] else before
    {
      assert k < hi - 1 ==> k in before;
    }
  }

  /** There is room for a candidate behind some others: the limit is not reached, its source and its fingerprint are
      new, and its document has not given all the chunks that it may. */
  ghost predicate HasRoom(selected: seq<Candidate>, c: Candidate, p: Profile) {
    && |selected| < p.maxResults
    && (forall i :: 0 <= i < |selected| ==> selected[i].source != c.source && selected[i].fingerprint != c.fingerprint)
    && (c.source.ChunkSource? && c.document.Some? ==>
          |PositionsOf(selected, c.document.value)| < p.maxChunksPerDocument)
  }

  /** The positions of the chunks of a document. */
  function PositionsOf(selected: seq<Candidate>, document: nat): set<nat> {
    set i: nat | i < |selected| && selected[i].source.ChunkSource? && selected[i].document == Some(document)
  }

  lemma {:induction false} ChunksAreCounted(selected: seq<Candidate>, document: nat)
    ensures ChunksOf(selected, document) == |PositionsOf(selected, document)|
  {
    if selected != [] {
      var n := |selected| - 1;
      ChunksAreCounted(selected[..n], document);
      var last := selected[n].source.ChunkSource? && selected[n].document == Some(document);
      assert PositionsOf(selected, document) == PositionsOf(selected[..n], document) + if last then {n} else {};
    } else {
      assert PositionsOf(selected, document) == {};
    }
  }

  lemma BlockedIfNoRoom(selected: seq<Candidate>, c: Candidate, p: Profile)
    ensures IsBlocked(selected, c, p) <==> !HasRoom(selected, c, p)
  {
    if c.document.Some? {
      ChunksAreCounted(selected, c.document.value);
    }
    if HasSource(selected, c) {
      var i :| 0 <= i < |selected| && SameSource(selected[i], c);
      assert selected[i].source == c.source;
    }
    if i :| 0 <= i < |selected| && selected[i].source == c.source {
      assert SameSource(selected[i], c);
    }
  }

  /** A greedy choice: one candidate after the other is added to the seeds, exactly if there is room for it behind
      what was added so far. */
  ghost predicate IsGreedyChoice(seeds: seq<Candidate>, cs: seq<Candidate>, p: Profile, states: seq<seq<Candidate>>) {
    && |states| == |cs| + 1 && states[0] == seeds
    && forall i :: 0 <= i < |cs| ==>
         states[i + 1] == if HasRoom(states[i], cs[i], p) then states[i] + [cs[i]] else states[i]
  }

  lemma {:induction false} FilledIsGreedy(seeds: seq<Candidate>, cs: seq<Candidate>, p: Profile)
    returns (states: seq<seq<Candidate>>)
    ensures IsGreedyChoice(seeds, cs, p, states) && Filled(seeds, cs, p) == states[|cs|]
    decreases |cs|
  {
    if cs == [] {
      states := [seeds];
    } else {
      var n := |cs| - 1;
      var before := FilledIsGreedy(seeds, cs[..n], p);
      BlockedIfNoRoom(before[n], cs[n], p);
      hide IsBlocked;
      hide HasRoom;
      states := before + [Filled(seeds, cs, p)];
      assert forall i :: 0 <= i <= n ==> states[i] == before[i];
      assert forall i :: 0 <= i < n ==> cs[..n][i] == cs[i];
      forall i | 0 <= i < |cs|
        ensures states[i + 1] == if HasRoom(states[i], cs[i], p) then states[i] + [cs[i]] else states[i]
      {
        if i < n {
          assert before[i + 1] == if HasRoom(before[i], cs[..n][i], p) then before[i] + [cs[..n][i]] else before[i];
        }
      }
    }
  }

  /** The seeds: the first note, and the first chunk if there is no note, or if its score is within 0.18 of that note's
      and two results are asked for. */
  ghost predicate AreSeeds(cs: seq<Candidate>, p: Profile, seeds: seq<Candidate>) {
    if forall i :: 0 <= i < |cs| ==> cs[i].source.ChunkSource? then seeds == if cs == [] then [] else [cs[0]]
    else exists n: nat :: IsFirstNote(cs, n) && AreSeedsOf(cs, p, n, seeds)
  }

  predicate IsFirstNote(cs: seq<Candidate>, n: nat) {
    n < |cs| && cs[n].source.NoteSource? && forall i :: 0 <= i < n ==> cs[i].source.ChunkSource?
  }

  predicate IsFirstChunk(cs: seq<Candidate>, k: nat) {
    k < |cs| && cs[k].source.ChunkSource? && forall i :: 0 <= i < k ==> cs[i].source.NoteSource?
  }

  /** The first chunk, if it is close enough to the first note. */
  ghost predicate IsSecondSeed(cs: seq<Candidate>, p: Profile, n: nat, k: nat)
    requires n < |cs|
  {
    IsFirstChunk(cs, k) && -0.18 <= cs[n].fused - cs[k].fused <= 0.18 && p.maxResults >= 2
  }

  ghost predicate AreSeedsOf(cs: seq<Candidate>, p: Profile, n: nat, seeds: seq<Candidate>)
    requires n < |cs|
  {
    if exists k: nat :: IsSecondSeed(cs, p, n, k) then
      exists k: nat :: IsSecondSeed(cs, p, n, k) && seeds == [cs[n], cs[k]]
    else seeds == [cs[n]]
  }

  lemma SeedsAreThose(cs: seq<Candidate>, p: Profile)
    ensures AreSeeds(cs, p, Seeds(cs, p))
  {
    var n, k := FirstNote(cs, 0), FirstChunk(cs, 0);
    if n.None? {
      assert cs != [] ==> cs[0].source.ChunkSource?;
    } else {
      assert IsFirstNote(cs, n.value);
      if k.Some? {
        assert IsFirstChunk(cs, k.value);
        assert IsSecondSeed(cs, p, n.value, k.value) <==> Gap(cs[n.value], cs[k.value]) <= 0.18 && 1 < p.maxResults;
      }
      forall j: nat
        ensures IsFirstChunk(cs, j) ==> k == Some(j)
      {
      }
      assert AreSeedsOf(cs, p, n.value, Seeds(cs, p));
    }
  }

  /** The whole selection: the seeds and, behind them, the greedy choice from all candidates in order. */
  lemma SelectionIsGreedy(cs: seq<Candidate>, p: Profile) returns (seeds: seq<Candidate>, states: seq<seq<Candidate>>)
    ensures AreSeeds(cs, p, seeds) && IsGreedyChoice(seeds, cs, p, states) && Balanced(cs, p) == states[|cs|]
  {
    SeedsAreThose(cs, p);
    hide AreSeeds;
    hide IsGreedyChoice;
    seeds := Seeds(cs, p);
    states := FilledIsGreedy(seeds, cs, p);
  }
}
