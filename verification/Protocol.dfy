/** Any number of clients over one compare-and-swap head (src/authority/store.ts, src/authority/engine.ts).

    The store is the parent chain of commits; its last commit is the head.  A client reads the head, decides from
    the projection of that head's history, and later tries to append.  Between the two other clients may append, and
    the client may crash.  The 16-attempt retry loops are repetitions of these steps. */
module Protocol {
  import opened Facts
  import opened Lifecycles
  import opened Replay
  import opened Invariants
  import opened RunSafety
  import opened Engine
  import opened Writer

  datatype Client = Idle | Pending(seen: Option<CommitId>, draft: Record)

  datatype System = System(log: seq<Record>, clients: map<nat, Client>)

  function HeadOf(log: seq<Record>): Option<CommitId> {
    if log == [] then None else Some(log[|log| - 1].commit)
  }

  /** Commit ids are distinct hex strings and every commit records its predecessor as parent. */
  ghost predicate Chained(log: seq<Record>) {
    && (forall i :: 0 <= i < |log| ==> HexCommit(log[i].commit) && log[i].parent == HeadOf(log[..i]))
    && (forall i, j :: 0 <= i < j < |log| ==> log[i].commit != log[j].commit)
  }

  // ---------------------------------------------------------------- steps

  ghost predicate Init(s: System) {
    s.log == [] && forall i :: i in s.clients ==> s.clients[i] == Idle
  }

  /** `draft` is what some honest command decides on the projection of `log`. */
  ghost predicate Decided(o: Oracle, log: seq<Record>, draft: Record) {
    if log == [] then draft == Blank
    else
      && ReplayAll(o, log).Ok?
      && exists cmd :: DecidedBy(o, log, draft, cmd)
  }

  ghost predicate DecidedBy(o: Oracle, log: seq<Record>, draft: Record, cmd: Command)
    requires log != []
  {
    && ReplayAll(o, log).Ok?
    && var c := ReplayAll(o, log).value;
       && Lives(ViewOf(c)).Ok?
       && Decide(o, c, Lives(ViewOf(c)).value, HeadOf(log).value, cmd) == Ok(draft)
       && Honest(c, cmd)
  }

  ghost predicate Read(o: Oracle, s: System, s': System, i: nat) {
    && i in s.clients && i in s'.clients
    && s'.log == s.log
    && s'.clients == s.clients[i := s'.clients[i]]
    && s'.clients[i].Pending? && s'.clients[i].seen == HeadOf(s.log)
    && Decided(o, s.log, s'.clients[i].draft)
  }

  /** The store appends only if the head is still the one the client saw. */
  ghost predicate Append(s: System, s': System, i: nat, commit: CommitId) {
    && i in s.clients && s.clients[i].Pending?
    && s'.clients == s.clients[i := Idle]
    && if s.clients[i].seen == HeadOf(s.log)
       then Fresh(s.log, commit) && s'.log == s.log + [Stamp(s.clients[i].draft, commit, s.clients[i].seen)]
       else s'.log == s.log
  }

  ghost predicate Fresh(log: seq<Record>, commit: CommitId) {
    HexCommit(commit) && forall k :: 0 <= k < |log| ==> log[k].commit != commit
  }

  ghost predicate Crash(s: System, s': System, i: nat) {
    i in s.clients && s' == s.(clients := s.clients[i := Idle])
  }

  /** One step of client `i`; `commit` is the id the store would give a new commit. */
  ghost predicate ClientStep(o: Oracle, s: System, s': System, i: nat, commit: CommitId) {
    Read(o, s, s', i) || Append(s, s', i, commit) || Crash(s, s', i)
  }

  ghost predicate Next(o: Oracle, s: System, s': System) {
    exists i: nat, commit :: ClientStep(o, s, s', i, commit)
  }

  ghost predicate Behavior(o: Oracle, trace: seq<System>) {
    && |trace| > 0 && Init(trace[0])
    && forall k :: 0 <= k < |trace| - 1 ==> Next(o, trace[k], trace[k + 1])
  }

  // ---------------------------------------------------------------- the invariant

  /** A log the writers can have produced. */
  ghost predicate Written(o: Oracle, log: seq<Record>) {
    && Accepted(o, log)
    && WriterInv(After(o, log))
    && Lives(ViewOf(After(o, log))).Ok?
    && forall r :: r in log ==> Paired(r)
  }

  /** A pending draft was decided on some prefix of the log. */
  ghost predicate PendingOk(o: Oracle, log: seq<Record>, client: Client) {
    client.Pending? ==> exists n: nat :: DecidedAt(o, log, n, client)
  }

  ghost predicate DecidedAt(o: Oracle, log: seq<Record>, n: nat, client: Client)
    requires client.Pending?
  {
    n <= |log| && client.seen == HeadOf(log[..n]) && Decided(o, log[..n], client.draft)
  }

  /** The record is the stamped decision of some honest command, at the head it was appended to. */
  ghost predicate Made(o: Oracle, log: seq<Record>, n: nat)
    requires n < |log|
  {
    exists draft :: Decided(o, log[..n], draft) && log[n] == Stamp(draft, log[n].commit, HeadOf(log[..n]))
  }

  lemma MadeExtends(o: Oracle, log: seq<Record>, r: Record, n: nat)
    requires n < |log| && Made(o, log, n)
    ensures Made(o, log + [r], n)
  {
    hide Decided;
    assert (log + [r])[..n] == log[..n];
  }

  ghost predicate SystemInv(o: Oracle, s: System) {
    && Chained(s.log)
    && (forall n :: 0 <= n <= |s.log| ==> Written(o, s.log[..n]))
    && (forall n :: 0 <= n < |s.log| ==> Made(o, s.log, n))
    && (forall i :: i in s.clients ==> PendingOk(o, s.log, s.clients[i]))
  }

  // ---------------------------------------------------------------- initial state

  lemma EmptyWritten(o: Oracle)
    ensures Written(o, [])
  {
    EmptyInv();
    assert Admissible(EmptyCore.obligations);
    AdmissibleProjects(EmptyCore);
  }

  lemma InitInv(o: Oracle, s: System)
    requires Init(s)
    ensures SystemInv(o, s)
  {
    hide Written;
    EmptyWritten(o);
    assert s.log[..0] == [];
  }

  // ---------------------------------------------------------------- preservation

  lemma PendingExtends(o: Oracle, log: seq<Record>, r: Record, client: Client)
    requires PendingOk(o, log, client)
    ensures PendingOk(o, log + [r], client)
  {
    hide Decided;
    if client.Pending? {
      var n: nat :| DecidedAt(o, log, n, client);
      assert (log + [r])[..n] == log[..n];
      assert DecidedAt(o, log + [r], n, client);
    }
  }

  /** Distinct commit ids identify the prefix a head names. */
  lemma HeadNamesPrefix(log: seq<Record>, n: nat)
    requires Chained(log) && n <= |log| && HeadOf(log[..n]) == HeadOf(log)
    ensures n == |log|
  {
  }

  lemma ChainExtends(log: seq<Record>, draft: Record, commit: CommitId)
    requires Chained(log) && Fresh(log, commit)
    ensures Chained(log + [Stamp(draft, commit, HeadOf(log))])
  {
    var log' := log + [Stamp(draft, commit, HeadOf(log))];
    forall i | 0 <= i < |log'| ensures HexCommit(log'[i].commit) && log'[i].parent == HeadOf(log'[..i]) {
      if i < |log| { assert log'[..i] == log[..i]; } else { assert log'[..i] == log; }
    }
  }

  lemma BlankAccepted(o: Oracle, commit: CommitId)
    ensures Step(o, EmptyCore, Stamp(Blank, commit, None)) == Ok(Bump(EmptyCore))
  {
  }

  lemma FirstCommit(o: Oracle, commit: CommitId)
    ensures Written(o, [Stamp(Blank, commit, None)])
  {
    hide Step, Lives, Inv, Admissible, SettlementsHex;
    var r := Stamp(Blank, commit, None);
    EmptyWritten(o);
    BlankAccepted(o, commit);
    Snoc(o, [], r);
    assert [] + [r] == [r];
    BumpKeeps(EmptyCore);
    assert ViewOf(Bump(EmptyCore)) == ViewOf(EmptyCore);
  }

  lemma NextCommit(o: Oracle, log: seq<Record>, draft: Record, commit: CommitId)
    requires log != [] && Written(o, log) && Decided(o, log, draft)
    requires HexCommit(HeadOf(log).value) && HexCommit(commit)
    ensures Written(o, log + [Stamp(draft, commit, HeadOf(log))])
  {
    hide Step, Lives, Fold, Decide, Honest, WriterInv, HexCommit;
    var cmd :| DecidedBy(o, log, draft, cmd);
    var c := After(o, log);
    var lives := Lives(ViewOf(c)).value;
    WriteKeeps(o, c, lives, HeadOf(log).value, commit, cmd);
    Snoc(o, log, Stamp(draft, commit, HeadOf(log)));
  }

  /** Appending a decision keeps every prefix written and every record made. */
  lemma LogExtends(o: Oracle, log: seq<Record>, draft: Record, commit: CommitId)
    requires Chained(log) && Decided(o, log, draft) && Fresh(log, commit)
    requires (forall n :: 0 <= n <= |log| ==> Written(o, log[..n])) && (forall n :: 0 <= n < |log| ==> Made(o, log, n))
    ensures var log' := log + [Stamp(draft, commit, HeadOf(log))];
      (forall n :: 0 <= n <= |log'| ==> Written(o, log'[..n])) && (forall n :: 0 <= n < |log'| ==> Made(o, log', n))
  {
    hide Written, Decided, HexCommit, Chained, Fresh;
    var r := Stamp(draft, commit, HeadOf(log));
    var log' := log + [r];
    assert log[..|log|] == log && log'[..|log|] == log;
    AppendWritten(o, log, draft, commit);
    forall k | 0 <= k <= |log'| ensures Written(o, log'[..k]) {
      if k <= |log| { assert log'[..k] == log[..k]; } else { assert log'[..k] == log'; }
    }
    forall k | 0 <= k < |log'| ensures Made(o, log', k) {
      if k < |log| { MadeExtends(o, log, r, k); }
    }
  }

  lemma AppendKeeps(o: Oracle, s: System, s': System, i: nat, commit: CommitId)
    requires SystemInv(o, s) && Append(s, s', i, commit)
    ensures SystemInv(o, s')
  {
    hide Written, Decided, HexCommit, Made, Chained, Fresh;
    if s.clients[i].seen == HeadOf(s.log) {
      var draft := s.clients[i].draft;
      var n: nat :| DecidedAt(o, s.log, n, s.clients[i]);
      HeadNamesPrefix(s.log, n);
      assert s.log[..n] == s.log;
      ChainExtends(s.log, draft, commit);
      LogExtends(o, s.log, draft, commit);
      forall j | j in s'.clients ensures PendingOk(o, s'.log, s'.clients[j]) {
        if j != i { PendingExtends(o, s.log, Stamp(draft, commit, HeadOf(s.log)), s.clients[j]); }
      }
    }
  }

  lemma AppendWritten(o: Oracle, log: seq<Record>, draft: Record, commit: CommitId)
    requires Chained(log) && Written(o, log) && Decided(o, log, draft) && Fresh(log, commit)
    ensures Written(o, log + [Stamp(draft, commit, HeadOf(log))])
  {
    hide Written, HexCommit;
    if log == [] {
      FirstCommit(o, commit);
      assert log + [Stamp(draft, commit, HeadOf(log))] == [Stamp(Blank, commit, None)];
    } else {
      NextCommit(o, log, draft, commit);
    }
  }

  lemma ReadKeeps(o: Oracle, s: System, s': System, i: nat)
    requires SystemInv(o, s) && Read(o, s, s', i)
    ensures SystemInv(o, s')
  {
    hide Written, Decided, Chained;
    forall j | j in s'.clients ensures PendingOk(o, s'.log, s'.clients[j]) {
      if j == i {
        assert s.log[..|s.log|] == s.log;
        assert DecidedAt(o, s'.log, |s.log|, s'.clients[i]);
      }
    }
  }

  lemma NextKeeps(o: Oracle, s: System, s': System)
    requires SystemInv(o, s) && Next(o, s, s')
    ensures SystemInv(o, s')
  {
    hide Read, Append, Written, Decided, Chained;
    var i: nat, commit :| ClientStep(o, s, s', i, commit);
    if Read(o, s, s', i) {
      ReadKeeps(o, s, s', i);
    } else if Append(s, s', i, commit) {
      AppendKeeps(o, s, s', i, commit);
    }
  }

  lemma {:induction false} BehaviorInv(o: Oracle, trace: seq<System>, k: nat)
    requires Behavior(o, trace) && k < |trace|
    ensures SystemInv(o, trace[k])
    decreases k
  {
    hide SystemInv, Next, Init;
    if k == 0 {
      InitInv(o, trace[0]);
    } else {
      BehaviorInv(o, trace, k - 1);
      assert Next(o, trace[k - 1], trace[k - 1 + 1]);
      NextKeeps(o, trace[k - 1], trace[k]);
    }
  }

  // ---------------------------------------------------------------- what every behaviour keeps

  /** Writer refines reducer: in every interleaving of any number of clients, with any crashes, the history of every
      head that was ever current replays without error and its graph is admissible. */
  lemma EveryHeadReplays(o: Oracle, trace: seq<System>, k: nat, n: nat)
    requires Behavior(o, trace) && k < |trace| && n <= |trace[k].log|
    ensures ReplayAll(o, trace[k].log[..n]).Ok?
    ensures Admissible(ReplayAll(o, trace[k].log[..n]).value.obligations)
  {
    hide Fold, Lives, Admissible, Inv, SettlementsHex, Behavior, Chained, PendingOk;
    BehaviorInv(o, trace, k);
    assert Written(o, trace[k].log[..n]);
  }

  /** Every record of every behaviour is the decision of an honest command at the head it was appended to. */
  lemma EveryRecordMade(o: Oracle, trace: seq<System>, k: nat, n: nat)
    requires Behavior(o, trace) && k < |trace| && n < |trace[k].log|
    ensures Made(o, trace[k].log, n) && Written(o, trace[k].log[..n]) && Accepted(o, trace[k].log)
  {
    hide Made, Behavior, Chained, PendingOk, Fold, Lives, WriterInv;
    BehaviorInv(o, trace, k);
    assert trace[k].log[..|trace[k].log|] == trace[k].log;
    assert Written(o, trace[k].log);
  }

  lemma NextExtends(o: Oracle, s: System, s': System)
    requires Next(o, s, s')
    ensures |s.log| <= |s'.log| && s'.log[..|s.log|] == s.log
  {
    hide Decided, Fresh;
    var i: nat, commit :| ClientStep(o, s, s', i, commit);
    if s'.log == s.log { assert s'.log[..|s.log|] == s'.log; }
  }

  /** The log only ever grows at its end, so a head's history never changes. */
  lemma {:induction false} HistoryImmutable(o: Oracle, trace: seq<System>, j: nat, k: nat)
    requires Behavior(o, trace) && j <= k < |trace|
    ensures |trace[j].log| <= |trace[k].log| && trace[k].log[..|trace[j].log|] == trace[j].log
    decreases k
  {
    hide Next, Init;
    if j == k {
      assert trace[k].log[..|trace[k].log|] == trace[k].log;
    } else {
      HistoryImmutable(o, trace, j, k - 1);
      assert Next(o, trace[k - 1], trace[k - 1 + 1]);
      NextExtends(o, trace[k - 1], trace[k]);
      assert trace[k].log[..|trace[j].log|] == trace[k].log[..|trace[k - 1].log|][..|trace[j].log|];
    }
  }

  /** One effect per run in every behaviour of the whole system. */
  lemma SystemOneEffectPerRun(o: Oracle, trace: seq<System>, k: nat, run: RunId)
    requires Behavior(o, trace) && k < |trace|
    ensures ReservationsOf(trace[k].log, run) <= 1
  {
    hide Fold, Lives, WriterInv, Behavior, Chained, PendingOk, ReservationsOf;
    BehaviorInv(o, trace, k);
    assert trace[k].log[..|trace[k].log|] == trace[k].log;
    assert Written(o, trace[k].log);
    OneEffectPerRun(o, trace[k].log, run);
  }

  /** Later logs extend earlier ones by records that pair every release with its own receipt. */
  lemma LaterLog(o: Oracle, trace: seq<System>, k: nat, j: nat) returns (more: seq<Record>)
    requires Behavior(o, trace) && k <= j < |trace|
    ensures trace[j].log == trace[k].log + more && (forall r :: r in more ==> Paired(r))
    ensures Accepted(o, trace[k].log) && Accepted(o, trace[j].log)
  {
    hide Fold, Lives, WriterInv, Behavior, Chained, PendingOk;
    BehaviorInv(o, trace, k);
    BehaviorInv(o, trace, j);
    HistoryImmutable(o, trace, k, j);
    assert trace[k].log[..|trace[k].log|] == trace[k].log && trace[j].log[..|trace[j].log|] == trace[j].log;
    assert Written(o, trace[k].log) && Written(o, trace[j].log);
    more := trace[j].log[|trace[k].log|..];
    assert forall r :: r in more ==> r in trace[j].log;
  }

  /** No blind replay in any behaviour: a reservation present at one moment is still there, unchanged, at any later moment,
      or some record between the two resolved it. */
  lemma SystemNoBlindReplay(o: Oracle, trace: seq<System>, k: nat, j: nat, run: RunId)
    requires Behavior(o, trace) && k <= j < |trace|
    requires Accepted(o, trace[k].log) && run in After(o, trace[k].log).unresolved
    ensures Accepted(o, trace[j].log)
    ensures
      var held := After(o, trace[k].log).unresolved[run];
      || (run in After(o, trace[j].log).unresolved && After(o, trace[j].log).unresolved[run] == held)
      || exists n :: |trace[k].log| <= n < |trace[j].log| && Accepted(o, trace[j].log[..n])
           && Resolves(o, After(o, trace[j].log[..n]), trace[j].log[n], run, held)
  {
    hide Behavior, Resolves, Accepted, After;
    var more := LaterLog(o, trace, k, j);
    NoBlindReplay(o, trace[k].log, more, run);
    var log, held := trace[k].log, After(o, trace[k].log).unresolved[run];
    if m :| 0 <= m < |more| && Accepted(o, log + more[..m]) && Ends(o, After(o, log + more[..m]), more[m], run, held) {
      var n := |log| + m;
      assert more[m] in more && !SettledByOther(more[m], run);
      assert trace[j].log[..n] == log + more[..m] && trace[j].log[n] == more[m];
    }
  }
}
