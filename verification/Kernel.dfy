/** The store and the kernel as objects (src/authority/store.ts, src/authority/engine.ts:114-180, 353-439, 872-899). */
module Kernel {
  import opened Facts
  import opened Lifecycles
  import opened Replay
  import opened RunSafety
  import opened Engine
  import opened Writer
  import opened Protocol
  import opened Incremental

  /** The history of a commit: the log up to and including it. */
  function HistoryOf(log: seq<Record>, head: CommitId): Option<seq<Record>> {
    if log == [] then None
    else if log[|log| - 1].commit == head then Some(log)
    else HistoryOf(log[..|log| - 1], head)
  }

  /** A durable fact store: a chain of commits with one compare-and-swap head. */
  class FactStore {
    var log: seq<Record>

    ghost predicate Valid()
      reads this
    {
      Chained(log)
    }

    constructor ()
      ensures Valid() && log == []
    {
      log := [];
    }

    method Head() returns (head: Option<CommitId>)
      ensures head == HeadOf(log)
    {
      head := if log == [] then None else Some(log[|log| - 1].commit);
    }

    method History(head: CommitId) returns (commits: Option<seq<Record>>)
      ensures commits == HistoryOf(log, head)
    {
      var n := |log|;
      assert log[..n] == log;
      while n > 0
        invariant 0 <= n <= |log|
        invariant HistoryOf(log, head) == HistoryOf(log[..n], head)
      {
        if log[n - 1].commit == head {
          assert log[..n] != [] && log[..n][|log[..n]| - 1].commit == head;
          return Some(log[..n]);
        }
        assert log[..n][..n - 1] == log[..n - 1];
        n := n - 1;
      }
      assert log[..0] == [];
      commits := None;
    }

    /** Appends under the expected head, or loses. */
    method Append(expected: Option<CommitId>, draft: Record, commit: CommitId) returns (won: bool)
      requires Valid() && Fresh(log, commit)
      modifies this
      ensures Valid()
      ensures won <==> expected == HeadOf(old(log))
      ensures log == if won then old(log) + [Stamp(draft, commit, expected)] else old(log)
    {
      won := expected == HeadOf(log);
      if won {
        ChainExtends(log, draft, commit);
        log := log + [Stamp(draft, commit, expected)];
      }
    }

    /** Other clients append while this one is between its read and its append. */
    method Land(rivals: seq<Record>)
      requires Chained(log + rivals)
      modifies this
      ensures Valid() && log == old(log) + rivals
    {
      log := log + rivals;
    }
  }

  datatype Cached = Cached(head: CommitId, count: nat, projection: Projection)

  /** A cache entry is the full replay of the prefix its head names. */
  ghost predicate CacheFits(o: Oracle, log: seq<Record>, cache: Cached) {
    && 0 < cache.count <= |log|
    && log[cache.count - 1].commit == cache.head
    && ReplayFrom(o, log[..cache.count], None) == Ok(cache.projection)
  }

  lemma CacheSurvives(o: Oracle, log: seq<Record>, more: seq<Record>, cache: Cached)
    requires CacheFits(o, log, cache)
    ensures CacheFits(o, log + more, cache)
  {
    hide ReplayFrom;
    assert (log + more)[..cache.count] == log[..cache.count];
  }

  /** The history of a commit in a chained log is a prefix that ends with it. */
  lemma {:induction false} HistoryIsPrefix(log: seq<Record>, head: CommitId)
    requires HistoryOf(log, head).Some?
    ensures var h := HistoryOf(log, head).value; 0 < |h| <= |log| && h == log[..|h|] && h[|h| - 1].commit == head
    decreases |log|
  {
    if log[|log| - 1].commit != head { HistoryIsPrefix(log[..|log| - 1], head); }
  }

  /** `advanceProjection` over the commits after a cached prefix. */
  method Advance(o: Oracle, commits: seq<Record>, from: nat, start: Projection) returns (r: Result<Projection>)
    requires from <= |commits| && ReplayFrom(o, commits[..from], None) == Ok(start)
    ensures r.Ok? <==> ReplayFrom(o, commits, None).Ok?
    ensures r.Ok? ==> r == ReplayFrom(o, commits, None)
  {
    hide ReplayFrom, Consistent;
    var p := start;
    var k := from;
    while k < |commits|
      invariant from <= k <= |commits| && ReplayFrom(o, commits[..k], None) == Ok(p)
    {
      ReplayConsistent(o, commits[..k], None);
      var next := ReplayProjection(o, [commits[k]], Some(p));
      IncrementalEqualsFull(o, commits[..k], [commits[k]], None);
      assert commits[..k] + [commits[k]] == commits[..k + 1];
      if next.Err? {
        IncrementalEqualsFull(o, commits[..k + 1], commits[k + 1..], None);
        assert commits[..k + 1] + commits[k + 1..] == commits;
        return next;
      }
      p := next.value;
      k := k + 1;
    }
    assert commits[..k] == commits;
    r := Ok(p);
  }

  // ---------------------------------------------------------------- one call against a schedule of rivals

  /** The retry budget: 16 attempts, except for the methods that give up on the first lost race. */
  function Attempts(cmd: Command): nat {
    match cmd
    case ClaimWork(_, _, _, _, _) => 1
    case RefreshRealization(_, _, _) => 1
    case PatchGraph(_, _) => 1
    case Initialize => 1
    case _ => 16
  }

  function LossError(cmd: Command): Error { if Attempts(cmd) == 1 then CasLost else ContentionExhausted }

  /** What the command decides on the projection of a log. */
  function DecisionAt(o: Oracle, log: seq<Record>, cmd: Command): Result<Record>
    requires log != []
  {
    var c :- ReplayAll(o, log);
    var lives :- Lives(ViewOf(c));
    Decide(o, c, lives, HeadOf(log).value, cmd)
  }

  /** The log and the result of a call: the first attempt without rivals wins, unless a guard fails before. */
  function Outcome(o: Oracle, log: seq<Record>, rivals: seq<seq<Record>>, cmd: Command, commit: CommitId): (seq<Record>, Result<CommitId>)
    requires log != []
    decreases |rivals|
  {
    if rivals == [] then (log, Err(LossError(cmd)))
    else if DecisionAt(o, log, cmd).Err? then (log, Err(DecisionAt(o, log, cmd).error))
    else if rivals[0] == [] then (log + [Stamp(DecisionAt(o, log, cmd).value, commit, HeadOf(log))], Ok(commit))
    else Outcome(o, log + rivals[0], rivals[1..], cmd, commit)
  }

  /** The calls that give up on the first lost race. */
  predicate OneShot(cmd: Command) { cmd.ClaimWork? || cmd.RefreshRealization? || cmd.PatchGraph? || cmd.Initialize? }

  /** The log once the rivals of the first `k` attempts have landed. */
  function LogAt(log: seq<Record>, rivals: seq<seq<Record>>, k: nat): seq<Record>
    requires k <= |rivals|
    ensures log != [] ==> LogAt(log, rivals, k) != []
  {
    if k == 0 then log else LogAt(log, rivals, k - 1) + rivals[k - 1]
  }

  lemma {:induction false} LogAtNext(log: seq<Record>, rivals: seq<seq<Record>>, k: nat)
    requires k < |rivals|
    ensures LogAt(log, rivals, k + 1) == LogAt(log + rivals[0], rivals[1..], k)
    decreases k
  {
    if k > 0 { LogAtNext(log, rivals, k - 1); }
  }

  /** Every attempt before `k` decided to write and lost its race. */
  ghost predicate Disturbed(o: Oracle, log: seq<Record>, rivals: seq<seq<Record>>, cmd: Command, k: nat)
    requires log != [] && k <= |rivals|
  {
    forall i :: 0 <= i < k ==> rivals[i] != [] && DecisionAt(o, LogAt(log, rivals, i), cmd).Ok?
  }

  /** How the call ended at attempt `k`: it failed a guard, won the race, or had no attempt left. */
  ghost predicate EndsAt(o: Oracle, log: seq<Record>, rivals: seq<seq<Record>>, cmd: Command, commit: CommitId, k: nat,
                         log': seq<Record>, r: Result<CommitId>)
    requires log != [] && k <= |rivals|
  {
    var here := LogAt(log, rivals, k);
    && Disturbed(o, log, rivals, cmd, k)
    && if k == |rivals| then log' == here && r == Err(if OneShot(cmd) then CasLost else ContentionExhausted)
       else if DecisionAt(o, here, cmd).Err? then log' == here && r == Err(DecisionAt(o, here, cmd).error)
       else rivals[k] == [] && log' == here + [Stamp(DecisionAt(o, here, cmd).value, commit, HeadOf(here))] && r == Ok(commit)
  }

  /** A call ends at its first attempt that fails a guard or meets no rival, or with its attempts exhausted; the log is then what
      the rivals left, and the call's own record if it won. */
  lemma {:induction false} OutcomeEnds(o: Oracle, log: seq<Record>, rivals: seq<seq<Record>>, cmd: Command, commit: CommitId) returns (k: nat)
    requires log != []
    ensures k <= |rivals| && EndsAt(o, log, rivals, cmd, commit, k, Outcome(o, log, rivals, cmd, commit).0, Outcome(o, log, rivals, cmd, commit).1)
    decreases |rivals|
  {
    hide DecisionAt, EndsAt;
    var (log', r) := Outcome(o, log, rivals, cmd, commit);
    if rivals == [] || DecisionAt(o, log, cmd).Err? || rivals[0] == [] {
      k := 0;
      EndsNow(o, log, rivals, cmd, commit);
    } else {
      var before := OutcomeEnds(o, log + rivals[0], rivals[1..], cmd, commit);
      k := before + 1;
      EndsLater(o, log, rivals, cmd, commit, before, log', r);
    }
  }

  lemma EndsNow(o: Oracle, log: seq<Record>, rivals: seq<seq<Record>>, cmd: Command, commit: CommitId)
    requires log != [] && (rivals == [] || DecisionAt(o, log, cmd).Err? || rivals[0] == [])
    ensures EndsAt(o, log, rivals, cmd, commit, 0, Outcome(o, log, rivals, cmd, commit).0, Outcome(o, log, rivals, cmd, commit).1)
  {
    hide DecisionAt;
  }

  lemma EndsLater(o: Oracle, log: seq<Record>, rivals: seq<seq<Record>>, cmd: Command, commit: CommitId, k: nat, log': seq<Record>, r: Result<CommitId>)
    requires log != [] && rivals != [] && rivals[0] != [] && DecisionAt(o, log, cmd).Ok? && k < |rivals|
    requires EndsAt(o, log + rivals[0], rivals[1..], cmd, commit, k, log', r)
    ensures EndsAt(o, log, rivals, cmd, commit, k + 1, log', r)
  {
    hide DecisionAt, LogAt, OneShot;
    LogAtNext(log, rivals, k);
    assert k + 1 < |rivals| ==> rivals[k + 1] == rivals[1..][k];
    assert LogAt(log, rivals, 0) == log by { LogAtStart(log, rivals); }
    forall i | 0 <= i < k + 1 ensures rivals[i] != [] && DecisionAt(o, LogAt(log, rivals, i), cmd).Ok? {
      if i > 0 {
        LogAtNext(log, rivals, i - 1);
        assert rivals[i] == rivals[1..][i - 1];
      }
    }
  }

  lemma LogAtStart(log: seq<Record>, rivals: seq<seq<Record>>)
    ensures LogAt(log, rivals, 0) == log
  {
  }

  ghost predicate Here(o: Oracle, log: seq<Record>, cmd: Command, commit: CommitId) {
    log != [] && Chained(log) && Protocol.Written(o, log) && Fresh(log, commit) && Honest(After(o, log), cmd)
  }

  /** The rivals are writers too, and the hypotheses about this call hold at every head it may meet. */
  ghost predicate Environment(o: Oracle, log: seq<Record>, rivals: seq<seq<Record>>, cmd: Command, commit: CommitId)
    decreases |rivals|
  {
    Here(o, log, cmd, commit) && (rivals != [] ==> Environment(o, log + rivals[0], rivals[1..], cmd, commit))
  }

  lemma CacheKept(o: Oracle, log: seq<Record>, more: seq<Record>, cache: Option<Cached>)
    requires cache.Some? ==> CacheFits(o, log, cache.value)
    ensures cache.Some? ==> CacheFits(o, log + more, cache.value)
  {
    if cache.Some? { CacheSurvives(o, log, more, cache.value); }
  }

  lemma EnvironmentHere(o: Oracle, log: seq<Record>, rivals: seq<seq<Record>>, cmd: Command, commit: CommitId)
    requires Environment(o, log, rivals, cmd, commit)
    ensures log != [] && Protocol.Written(o, log) && Here(o, log, cmd, commit)
  {
  }

  lemma HeadHistory(log: seq<Record>)
    requires log != []
    ensures HistoryOf(log, HeadOf(log).value) == Some(log)
  {
  }

  /** The projection of a written log exists and is what its replay yields. */
  lemma WrittenProjects(o: Oracle, log: seq<Record>)
    requires Protocol.Written(o, log)
    ensures ReplayAll(o, log) == Ok(After(o, log))
    ensures ReplayFrom(o, log, None).Ok? && ReplayFrom(o, log, None).value.core == After(o, log)
    ensures Lives(ViewOf(After(o, log))) == Ok(ReplayFrom(o, log, None).value.lives)
  {
    hide Fold, Lives, WriterInv;
  }

  lemma WinnerWritten(o: Oracle, log: seq<Record>, cmd: Command, commit: CommitId)
    requires Here(o, log, cmd, commit) && DecisionAt(o, log, cmd).Ok?
    ensures Protocol.Written(o, log + [Stamp(DecisionAt(o, log, cmd).value, commit, HeadOf(log))])
  {
    hide Fold, Lives, WriterInv, Honest, Decide, HexCommit;
    WrittenProjects(o, log);
    assert DecidedBy(o, log, DecisionAt(o, log, cmd).value, cmd);
    AppendWritten(o, log, DecisionAt(o, log, cmd).value, commit);
  }

  /** What one attempt meets. */
  lemma AttemptMeets(o: Oracle, log: seq<Record>, rivals: seq<seq<Record>>, cmd: Command, commit: CommitId)
    requires rivals != [] && Environment(o, log, rivals, cmd, commit)
    ensures log != [] && Protocol.Written(o, log)
    ensures Chained(log + rivals[0]) && Fresh(log + rivals[0], commit)
    ensures Environment(o, log + rivals[0], rivals[1..], cmd, commit)
    ensures HeadOf(log + rivals[0]) == HeadOf(log) <==> rivals[0] == []
  {
    hide Protocol.Written, Honest, HexCommit, Chained, Fresh;
    RivalsChangeHead(log, rivals[0]);
  }

  /** What one attempt decides, from the cached projection or from the full replay. */
  lemma AttemptDecides(o: Oracle, log: seq<Record>, cmd: Command, commit: CommitId)
    requires Here(o, log, cmd, commit)
    ensures ReplayFrom(o, log, None).Ok?
    ensures DecisionAt(o, log, cmd) ==
      Decide(o, ReplayFrom(o, log, None).value.core, ReplayFrom(o, log, None).value.lives, HeadOf(log).value, cmd)
  {
    hide Protocol.Written, Honest, Decide, HexCommit, ReplayFrom, Lives, Chained, Fresh;
    WrittenProjects(o, log);
  }

  /** What one attempt leads to. */
  lemma AttemptLeads(o: Oracle, log: seq<Record>, rivals: seq<seq<Record>>, cmd: Command, commit: CommitId)
    requires log != [] && rivals != []
    ensures Outcome(o, log, rivals, cmd, commit) ==
      if DecisionAt(o, log, cmd).Err? then (log, Err(DecisionAt(o, log, cmd).error))
      else if rivals[0] == [] then (log + [Stamp(DecisionAt(o, log, cmd).value, commit, HeadOf(log))], Ok(commit))
      else Outcome(o, log + rivals[0], rivals[1..], cmd, commit)
  {
    hide DecisionAt;
  }

  lemma NoAttemptLeft(o: Oracle, log: seq<Record>, cmd: Command, commit: CommitId)
    requires log != []
    ensures Outcome(o, log, [], cmd, commit) == (log, Err(LossError(cmd)))
  {
  }

  lemma RivalsChangeHead(log: seq<Record>, more: seq<Record>)
    requires log != [] && Chained(log + more)
    ensures HeadOf(log + more) == HeadOf(log) <==> more == []
  {
    if more == [] {
      assert log + more == log;
    } else {
      assert (log + more)[|log| - 1] == log[|log| - 1];
    }
  }

  /** The writer: a store and an incremental projection cache. */
  class KernelCore {
    const o: Oracle
    const store: FactStore
    var cache: Option<Cached>

    ghost predicate Valid()
      reads this, store
    {
      store.Valid() && (cache.Some? ==> CacheFits(o, store.log, cache.value))
    }

    constructor (o: Oracle, store: FactStore)
      requires store.Valid()
      ensures Valid() && this.o == o && this.store == store
    {
      this.o, this.store, this.cache := o, store, None;
    }

    /** Whatever heads were asked for before, forwards or back to an old claim commit, the projection of a head is the
        full replay of its history. */
    method HistoricalProjection(head: CommitId) returns (r: Result<Projection>)
      requires Valid() && HistoryOf(store.log, head).Some?
      modifies this`cache
      ensures Valid()
      ensures r.Ok? <==> ReplayFrom(o, HistoryOf(store.log, head).value, None).Ok?
      ensures r.Ok? ==> r == ReplayFrom(o, HistoryOf(store.log, head).value, None)
    {
      hide ReplayFrom, Chained;
      var found := store.History(head);
      var commits := found.value;
      HistoryIsPrefix(store.log, head);
      if cache.Some? && cache.value.count > 0 && cache.value.count <= |commits| && commits[cache.value.count - 1].commit == cache.value.head {
        assert commits[..cache.value.count] == store.log[..cache.value.count];
        r := Advance(o, commits, cache.value.count, cache.value.projection);
      } else {
        r := ReplayProjection(o, commits, None);
      }
      if r.Ok? { cache := Some(Cached(head, |commits|, r.value)); }
    }

    /** One call of a writing method: read the head, decide, append; retried while rivals win the race.
        `rivals[k]` is what other clients append between the k-th read and the k-th append. */
    method Perform(cmd: Command, commit: CommitId, rivals: seq<seq<Record>>) returns (r: Result<CommitId>)
      requires Valid() && store.log != [] && |rivals| == if OneShot(cmd) then 1 else 16
      requires Environment(o, store.log, rivals, cmd, commit)
      modifies this`cache, store
      ensures Valid()
      ensures exists k :: 0 <= k <= |rivals| && EndsAt(o, old(store.log), rivals, cmd, commit, k, store.log, r)
      ensures Protocol.Written(o, store.log)
    {
      hide Protocol.Written, Honest, Decide, HexCommit, ReplayAll, ReplayFrom, Lives, Chained, CacheFits, DecisionAt, Fresh, Here, Outcome, Environment;
      ghost var ended := OutcomeEnds(o, store.log, rivals, cmd, commit);
      var k := 0;
      while k < Attempts(cmd)
        invariant 0 <= k <= |rivals|
        invariant Valid() && store.log != [] && Environment(o, store.log, rivals[k..], cmd, commit)
        invariant Outcome(o, old(store.log), rivals, cmd, commit) == Outcome(o, store.log, rivals[k..], cmd, commit)
      {
        AttemptMeets(o, store.log, rivals[k..], cmd, commit);
        assert rivals[k..][0] == rivals[k] && rivals[k..][1..] == rivals[k + 1..];
        EnvironmentHere(o, store.log, rivals[k..], cmd, commit);
        AttemptDecides(o, store.log, cmd, commit);
        AttemptLeads(o, store.log, rivals[k..], cmd, commit);
        if DecisionAt(o, store.log, cmd).Ok? { WinnerWritten(o, store.log, cmd, commit); }
        var head := store.Head();
        HeadHistory(store.log);
        WrittenProjects(o, store.log);
        var projected := HistoricalProjection(head.value);
        var decision := Decide(o, projected.value.core, projected.value.lives, head.value, cmd);
        if decision.Err? { return Err(decision.error); }
        CacheKept(o, store.log, rivals[k], cache);
        CacheKept(o, store.log + rivals[k], [Stamp(decision.value, commit, head)], cache);
        assert rivals[k] == [] ==> store.log + rivals[k] == store.log;
        store.Land(rivals[k]);
        var won := store.Append(head, decision.value, commit);
        if won { return Ok(commit); }
        k := k + 1;
      }
      ghost var none: seq<seq<Record>> := rivals[k..];
      assert none == [];
      EnvironmentHere(o, store.log, none, cmd, commit);
      NoAttemptLeft(o, store.log, cmd, commit);
      return Err(LossError(cmd));
    }
  }
}
