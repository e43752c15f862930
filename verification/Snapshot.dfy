/** The effect-admission snapshot: two bit sets in 32-bit words (src/authority/effect-admission-snapshot.ts). */
module Snapshot {
  import opened Facts
  import opened Lifecycles
  import opened Invariants
  import opened RunSafety
  import opened Statuses
  import opened Ordering
  import opened Bits

  const WordBits: nat := 32

  /** One more than the largest value of a 32-bit word, and than the largest array index. */
  const WordLimit: nat := 0x1_0000_0000

  lemma WordLimitIs()
    ensures Pow2(WordBits) == WordLimit
  {
    assert Pow2(8) == 256;
    assert Pow2(16) == 65536 by { assert Pow2(12) == 4096; }
    assert Pow2(20) == 1048576;
    assert Pow2(24) == 16777216;
    assert Pow2(28) == 268435456;
  }

  /** `index >>> 5` and `1 << (index & 31)`, as bit patterns. */
  function WordOf(index: nat): nat { index % WordLimit / 32 }
  function MaskAt(index: nat): nat { Pow2(index % 32) }

  /** `hasBit`; a word outside the array reads as zero. */
  predicate HasBit(words: seq<nat>, index: nat) {
    And(if WordOf(index) < |words| then words[WordOf(index)] else 0, MaskAt(index)) != 0
  }

  ghost predicate AreWords(words: seq<nat>) { forall i :: 0 <= i < |words| ==> words[i] < WordLimit }

  lemma OrIsWord(a: nat, index: nat)
    requires a < WordLimit
    ensures Or(a, MaskAt(index)) < WordLimit
  {
    WordLimitIs();
    Pow2Grows(index % 32, 32);
    OrBounded(a, MaskAt(index), 32);
  }

  /** Two indexes share word and bit only when they are equal. */
  lemma Position(i: nat, j: nat)
    requires i < WordLimit && j < WordLimit && WordOf(i) == WordOf(j) && i % 32 == j % 32
    ensures i == j
  {
    assert i == 32 * (i / 32) + i % 32 && j == 32 * (j / 32) + j % 32;
  }

  lemma SetOne(words: seq<nat>, index: nat, j: nat)
    requires index < WordLimit && j < WordLimit && WordOf(index) < |words|
    ensures HasBit(words[WordOf(index) := Or(words[WordOf(index)], MaskAt(index))], j) <==> HasBit(words, j) || j == index
  {
    var w := WordOf(index);
    if WordOf(j) == w {
      TestBit(words[w], j % 32);
      TestBit(Or(words[w], MaskAt(index)), j % 32);
      BitOr(words[w], MaskAt(index), j % 32);
      BitPow2(index % 32, j % 32);
      if j % 32 == index % 32 { Position(index, j); }
    }
  }

  /** `setBit`; the store truncates to 32 bits, and a store outside the array is ignored. */
  method SetBit(bits: array<nat>, index: nat)
    requires index < WordLimit && AreWords(bits[..])
    modifies bits
    ensures AreWords(bits[..])
    ensures WordOf(index) < bits.Length ==> forall j: nat :: j < WordLimit ==> (HasBit(bits[..], j) <==> HasBit(old(bits[..]), j) || j == index)
    ensures WordOf(index) >= bits.Length ==> bits[..] == old(bits[..])
  {
    hide HasBit, WordOf, MaskAt, Or;
    var word := WordOf(index);
    if word < bits.Length {
      ghost var words := bits[..];
      assert bits[word] == words[word];
      OrIsWord(bits[word], index);
      bits[word] := Or(bits[word], MaskAt(index)) % WordLimit;
      assert bits[..] == words[word := Or(words[word], MaskAt(index))];
      SetOneAll(words, index);
    }
  }

  lemma SetOneAll(words: seq<nat>, index: nat)
    requires index < WordLimit && WordOf(index) < |words|
    ensures forall j: nat :: j < WordLimit ==>
      (HasBit(words[WordOf(index) := Or(words[WordOf(index)], MaskAt(index))], j) <==> HasBit(words, j) || j == index)
  {
    hide HasBit, WordOf, MaskAt, Or;
    forall j: nat | j < WordLimit
      ensures HasBit(words[WordOf(index) := Or(words[WordOf(index)], MaskAt(index))], j) <==> HasBit(words, j) || j == index
    {
      SetOne(words, index, j);
    }
  }

  datatype IndexedRun = IndexedRun(index: nat, run: Run)

  predicate ExecutingIn(c: Core, lives: Realizations, id: RunId) { id in c.runs && CurrentIs(lives, c.runs[id], Executing) }

  /** In every projection the runs it marks are those of a current meaning without a receipt, or whose request for judgment a
      newer generation has overtaken. */
  lemma ExecutingInIff(c: Core, lives: Realizations, id: RunId)
    requires RunsInv(c) && Named(c.obligations) && Solves(ViewOf(c), lives)
    ensures ExecutingIn(c, lives, id) <==>
      && id in c.runs && c.runs[id].obligationId in lives && lives[c.runs[id].obligationId].key == Some(c.runs[id].key)
      && (id in c.latest ==> c.latest[id].disposition == DispositionWaiting && c.latest[id].fact.generation < c.runs[id].generation)
  {
    hide RunsInv, Solves, CurrentIs;
    if id in c.runs { StatusIff(c, lives, id); }
  }

  class EffectAdmissionSnapshot {
    const head: CommitId
    const runCount: nat
    const byRun: map<RunId, IndexedRun>
    const executing: array<nat>
    const unresolved: array<nat>

    /** `#test`. */
    predicate Test(bits: array<nat>, id: RunId)
      reads bits
    {
      id in byRun && HasBit(bits[..], byRun[id].index)
    }

    predicate Executing(id: RunId)
      reads executing
    {
      Test(executing, id)
    }

    predicate Unresolved(id: RunId)
      reads unresolved
    {
      Test(unresolved, id)
    }

    function Run(id: RunId): Option<Run> { if id in byRun then Some(byRun[id].run) else None }

    /** The snapshot of a projection answers every run id, known or unknown, as the maps do. */
    constructor (head: CommitId, c: Core, lives: Realizations)
      requires RunsNamed(c.runs) && |c.runs| < WordLimit
      ensures this.head == head && runCount == |c.runs|
      ensures forall id :: Executing(id) <==> ExecutingIn(c, lives, id)
      ensures forall id :: Unresolved(id) <==> id in c.runs && id in c.unresolved
      ensures forall id :: Run(id) == if id in c.runs then Some(c.runs[id]) else None
    {
      hide HasBit, AreWords, Marked, Indexed, ExecutingIn, RunsNamed;
      var ids := Sorted(c.runs.Keys);
      SortedSize(ids, c.runs.Keys);
      var indexed, running, held := IndexRuns(ids, c, lives);
      this.head, runCount, byRun, executing, unresolved := head, |ids|, indexed, running, held;
      new;
      Answer(ids, c, byRun);
      Answers(executing[..], ids, c, byRun, RunningRuns(c, lives));
      Answers(unresolved[..], ids, c, byRun, ReservedRuns(c));
      ExecutingClaimed(c, lives);
    }
  }

  ghost function RunningRuns(c: Core, lives: Realizations): set<RunId> { set id | id in c.runs && ExecutingIn(c, lives, id) }
  ghost function ReservedRuns(c: Core): set<RunId> { set id | id in c.runs && id in c.unresolved }

  lemma ExecutingClaimed(c: Core, lives: Realizations)
    ensures forall id :: ExecutingIn(c, lives, id) <==> id in RunningRuns(c, lives)
  {
  }

  /** The constructor's loop: index the sorted runs and set their bits. */
  method IndexRuns(ids: seq<RunId>, c: Core, lives: Realizations)
    returns (indexed: map<RunId, IndexedRun>, running: array<nat>, held: array<nat>)
    requires Increasing(ids) && |ids| < WordLimit && forall id :: id in ids <==> id in c.runs
    ensures Indexed(ids, |ids|, c, indexed) && fresh(running) && fresh(held)
    ensures Marked(running[..], ids, |ids|, RunningRuns(c, lives)) && Marked(held[..], ids, |ids|, ReservedRuns(c))
  {
    hide HasBit, AreWords, WordOf, Marked, Indexed, ExecutingIn;
    var words := (|ids| + 31) / 32;
    running := new nat[words](_ => 0);
    held := new nat[words](_ => 0);
    indexed := map[];
    NoBits(running[..], ids, RunningRuns(c, lives));
    NoBits(held[..], ids, ReservedRuns(c));
    NothingIndexed(ids, c);
    var index := 0;
    while index < |ids|
      invariant index <= |ids| && AreWords(running[..]) && AreWords(held[..])
      invariant Indexed(ids, index, c, indexed)
      invariant Marked(running[..], ids, index, RunningRuns(c, lives)) && Marked(held[..], ids, index, ReservedRuns(c))
      invariant fresh(running) && fresh(held) && running != held
    {
      var id := ids[index];
      assert id in ids;
      IndexedOne(ids, index, c, indexed);
      indexed := indexed[id := IndexedRun(index, c.runs[id])];
      Mark(running, index, ExecutingIn(c, lives, id), ids, RunningRuns(c, lives));
      Mark(held, index, id in c.unresolved, ids, ReservedRuns(c));
      index := index + 1;
    }
  }

  /** One step of the constructor's loop on one of the bit sets. */
  method Mark(bits: array<nat>, index: nat, flag: bool, ghost ids: seq<RunId>, ghost marked: set<RunId>)
    requires index < |ids| < WordLimit && Marked(bits[..], ids, index, marked) && AreWords(bits[..]) && (flag <==> ids[index] in marked)
    modifies bits
    ensures Marked(bits[..], ids, index + 1, marked) && AreWords(bits[..])
  {
    hide HasBit, AreWords;
    InRange(ids, index);
    if flag { SetBit(bits, index); }
    MarkedOne(old(bits[..]), bits[..], ids, index, marked);
  }

  // ---------------------------------------------------------------- the loop

  /** The first `n` runs are indexed by their position. */
  ghost predicate Indexed(ids: seq<RunId>, n: nat, c: Core, byRun: map<RunId, IndexedRun>) {
    && n <= |ids| && (forall id :: id in byRun <==> id in ids[..n])
    && forall i :: 0 <= i < n ==> ids[i] in c.runs && ids[i] in byRun && byRun[ids[i]] == IndexedRun(i, c.runs[ids[i]])
  }

  /** The bit of each of the first `n` runs says whether the run is in `marked`; all other bits are zero. */
  ghost predicate Marked(words: seq<nat>, ids: seq<RunId>, n: nat, marked: set<RunId>) {
    && n <= |ids| && (|ids| + 31) / 32 == |words|
    && forall j: nat :: j < WordLimit ==> (HasBit(words, j) <==> j < n && ids[j] in marked)
  }

  lemma NothingIndexed(ids: seq<RunId>, c: Core)
    ensures Indexed(ids, 0, c, map[])
  {
  }

  lemma NoBits(words: seq<nat>, ids: seq<RunId>, marked: set<RunId>)
    requires |words| == (|ids| + 31) / 32 && forall i :: 0 <= i < |words| ==> words[i] == 0
    ensures AreWords(words) && Marked(words, ids, 0, marked)
  {
    forall j: nat ensures !HasBit(words, j) {
      TestBit(0, j % 32);
      ZeroBits(j % 32);
    }
  }

  lemma InRange(ids: seq<RunId>, index: nat)
    requires index < |ids| < WordLimit
    ensures WordOf(index) < (|ids| + 31) / 32
  {
  }

  lemma IndexedOne(ids: seq<RunId>, n: nat, c: Core, byRun: map<RunId, IndexedRun>)
    requires Increasing(ids) && n < |ids| && Indexed(ids, n, c, byRun) && ids[n] in c.runs
    ensures Indexed(ids, n + 1, c, byRun[ids[n] := IndexedRun(n, c.runs[ids[n]])])
  {
    assert ids[..n + 1] == ids[..n] + [ids[n]];
    forall i | 0 <= i < n ensures ids[i] != ids[n] { BeforeTotal(ids[i], ids[n]); }
  }

  lemma MarkedOne(words: seq<nat>, words': seq<nat>, ids: seq<RunId>, n: nat, marked: set<RunId>)
    requires Marked(words, ids, n, marked) && n < |ids| < WordLimit && |words'| == |words|
    requires ids[n] !in marked ==> words' == words
    requires ids[n] in marked ==> forall j: nat :: j < WordLimit ==> (HasBit(words', j) <==> HasBit(words, j) || j == n)
    ensures Marked(words', ids, n + 1, marked)
  {
    hide HasBit;
  }

  lemma {:induction false} SortedSize(ids: seq<RunId>, all: set<RunId>)
    requires Increasing(ids) && forall x :: x in ids <==> x in all
    ensures |ids| == |all|
    decreases |ids|
  {
    if ids == [] {
      assert all == {};
    } else {
      var n := |ids| - 1;
      assert ids == ids[..n] + [ids[n]];
      forall i | 0 <= i < n ensures ids[i] != ids[n] { BeforeTotal(ids[i], ids[n]); }
      SortedSize(ids[..n], all - {ids[n]});
    }
  }

  lemma Answer(ids: seq<RunId>, c: Core, byRun: map<RunId, IndexedRun>)
    requires (forall id :: id in ids <==> id in c.runs) && Indexed(ids, |ids|, c, byRun)
    ensures forall id :: id in byRun <==> id in c.runs
    ensures forall id :: id in byRun ==> byRun[id].run == c.runs[id] && byRun[id].index < |ids| && ids[byRun[id].index] == id
  {
    assert ids[..|ids|] == ids;
    forall id | id in byRun ensures byRun[id].run == c.runs[id] && byRun[id].index < |ids| && ids[byRun[id].index] == id {
      var i :| 0 <= i < |ids| && ids[i] == id;
    }
  }

  lemma Answers(words: seq<nat>, ids: seq<RunId>, c: Core, byRun: map<RunId, IndexedRun>, marked: set<RunId>)
    requires (forall id :: id in ids <==> id in c.runs) && Indexed(ids, |ids|, c, byRun) && |ids| < WordLimit
    requires Marked(words, ids, |ids|, marked) && marked <= c.runs.Keys
    ensures forall id :: id in byRun && HasBit(words, byRun[id].index) <==> id in marked
  {
    hide HasBit;
    Answer(ids, c, byRun);
  }

  /** Over every accepted history reserved runs are claimed runs, which is what the snapshot's unresolved set relies on. */
  lemma {:induction false} ReservedRunsAreClaimed(o: Oracle, history: seq<Record>)
    requires Accepted(o, history)
    ensures RunsInv(After(o, history)) && After(o, history).unresolved.Keys <= After(o, history).runs.Keys
  {
    HistoryInv(o, history);
  }

  /** `buildEffectAdmissionSnapshot`, for any state that satisfies the reducer's invariant. */
  method BuildEffectAdmissionSnapshot(head: CommitId, c: Core, lives: Realizations) returns (snapshot: EffectAdmissionSnapshot)
    requires RunsInv(c) && |c.runs| < WordLimit
    ensures forall id :: snapshot.Executing(id) <==> ExecutingIn(c, lives, id)
    ensures forall id :: snapshot.Unresolved(id) <==> id in c.unresolved
    ensures forall id :: snapshot.Run(id) == if id in c.runs then Some(c.runs[id]) else None
  {
    hide ExecutingIn;
    snapshot := new EffectAdmissionSnapshot(head, c, lives);
  }
}
