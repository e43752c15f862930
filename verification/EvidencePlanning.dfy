/** The two evidence planners end to end: tables from supports, the search, and the choice
    (src/authority/assurance-relations.ts:48-137, src/architecture/change-planner.ts:85-128). */
module EvidencePlanning {
  import opened Facts
  import opened Ordering
  import opened EvidenceSearch

  datatype PropositionSupport = PropositionSupport(objectId: ObjectId, propositionId: PropositionId, coordinate: string)
  datatype EvidenceRow = EvidenceRow(evidenceId: ObjectId, obligationId: PropositionId)

  function Supports(rows: seq<PropositionSupport>, coordinate: string): Relation {
    set s | s in rows && s.coordinate == coordinate :: (s.objectId, s.propositionId)
  }

  function Witnesses(rows: seq<EvidenceRow>): Relation { set r | r in rows :: (r.evidenceId, r.obligationId) }

  function Mentioned(rows: seq<EvidenceRow>): set<PropositionId> { set r | r in rows :: r.obligationId }

  function PropositionsIn(s: seq<PropositionId>): set<PropositionId> { set q | q in s }

  /** The propositions that still need evidence. */
  ghost predicate Pending(required: seq<PropositionId>, existing: Relation, q: PropositionId) {
    q in required && forall o :: (o, q) !in existing
  }

  ghost predicate SupportedAll(rel: Relation, pending: set<PropositionId>) {
    forall q :: q in pending ==> exists o :: (o, q) in rel
  }

  // ---------------------------------------------------------------- building the tables

  /** The table holds exactly the pairs of the relation whose proposition is wanted. */
  ghost predicate TableOf(coverage: Coverage, rel: Relation, wanted: set<PropositionId>) {
    && (forall o, q :: Helps(coverage, o, q) <==> (o, q) in rel && q in wanted)
    && forall o :: o in coverage ==> coverage[o] != {}
  }

  lemma TableOne(coverage: Coverage, rel: Relation, wanted: set<PropositionId>, o: ObjectId, q: PropositionId)
    requires TableOf(coverage, rel, wanted) && q in wanted
    ensures TableOf(coverage[o := Share(coverage, o) + {q}], rel + {(o, q)}, wanted)
  {
    var more := coverage[o := Share(coverage, o) + {q}];
    forall o', q' ensures Helps(more, o', q') <==> (o', q') in rel + {(o, q)} && q' in wanted {
      assert Helps(coverage, o', q') <==> (o', q') in rel && q' in wanted;
    }
    assert q in more[o];
  }

  lemma TableSkip(coverage: Coverage, rel: Relation, wanted: set<PropositionId>, o: ObjectId, q: PropositionId)
    requires TableOf(coverage, rel, wanted) && q !in wanted
    ensures TableOf(coverage, rel + {(o, q)}, wanted)
  {
    forall o', q' ensures Helps(coverage, o', q') <==> (o', q') in rel + {(o, q)} && q' in wanted {
      assert Helps(coverage, o', q') <==> (o', q') in rel && q' in wanted;
    }
  }

  method CoverageOf(rows: seq<PropositionSupport>, coordinate: string, wanted: set<PropositionId>) returns (coverage: Coverage)
    ensures TableOf(coverage, Supports(rows, coordinate), wanted)
  {
    hide TableOf;
    coverage := map[];
    assert TableOf(coverage, Supports(rows[..0], coordinate), wanted) by { EmptyTable(wanted); assert Supports(rows[..0], coordinate) == {}; }
    for k := 0 to |rows|
      invariant TableOf(coverage, Supports(rows[..k], coordinate), wanted)
    {
      var s := rows[k];
      assert rows[..k + 1] == rows[..k] + [s];
      if s.coordinate == coordinate {
        assert Supports(rows[..k + 1], coordinate) == Supports(rows[..k], coordinate) + {(s.objectId, s.propositionId)};
        if s.propositionId in wanted {
          TableOne(coverage, Supports(rows[..k], coordinate), wanted, s.objectId, s.propositionId);
          coverage := coverage[s.objectId := Share(coverage, s.objectId) + {s.propositionId}];
        } else {
          TableSkip(coverage, Supports(rows[..k], coordinate), wanted, s.objectId, s.propositionId);
        }
      } else {
        assert Supports(rows[..k + 1], coordinate) == Supports(rows[..k], coordinate);
      }
    }
    assert rows[..|rows|] == rows;
  }

  lemma EmptyTable(wanted: set<PropositionId>)
    ensures TableOf(map[], {}, wanted)
  {
  }

  /** The planner's own table, over every obligation that occurs in the rows. */
  method WitnessTable(rows: seq<EvidenceRow>) returns (coverage: Coverage)
    ensures TableOf(coverage, Witnesses(rows), Mentioned(rows))
  {
    hide TableOf;
    ghost var wanted := Mentioned(rows);
    coverage := map[];
    assert TableOf(coverage, Witnesses(rows[..0]), wanted) by { EmptyTable(wanted); assert Witnesses(rows[..0]) == {}; }
    for k := 0 to |rows|
      invariant TableOf(coverage, Witnesses(rows[..k]), wanted)
    {
      var r := rows[k];
      assert r in rows && rows[..k + 1] == rows[..k] + [r];
      assert Witnesses(rows[..k + 1]) == Witnesses(rows[..k]) + {(r.evidenceId, r.obligationId)};
      TableOne(coverage, Witnesses(rows[..k]), wanted, r.evidenceId, r.obligationId);
      coverage := coverage[r.evidenceId := Share(coverage, r.evidenceId) + {r.obligationId}];
    }
    assert rows[..|rows|] == rows;
  }

  /** Some pending proposition that no object supports, if there is one. */
  method FirstUncovered(coverage: Coverage, pending: set<PropositionId>) returns (uncovered: Option<PropositionId>)
    ensures uncovered.None? ==> forall q :: q in pending ==> exists o :: Helps(coverage, o, q)
    ensures uncovered.Some? ==> uncovered.value in pending && forall o :: !Helps(coverage, o, uncovered.value)
  {
    var left := pending;
    while left != {}
      invariant left <= pending && forall q :: q in pending && q !in left ==> exists o :: Helps(coverage, o, q)
      decreases left
    {
      var q :| q in left;
      if o :| o in coverage && q in coverage[o] {
        assert Helps(coverage, o, q);
      } else {
        return Some(q);
      }
      left := left - {q};
    }
    return None;
  }

  /** The union of everything: with every pending proposition supported, all candidates together suffice. */
  lemma AllSuffice(rel: Relation, pending: set<PropositionId>, candidates: seq<ObjectId>)
    requires SupportedAll(rel, pending) && Complete(rel, pending, candidates)
    ensures Suffices(rel, pending, candidates)
  {
    forall q | q in pending ensures exists o :: o in candidates && (o, q) in rel {
      var o :| (o, q) in rel;
    }
  }

  lemma TableFacts(coverage: Coverage, rel: Relation, wanted: set<PropositionId>, pending: set<PropositionId>, candidates: seq<ObjectId>)
    requires TableOf(coverage, rel, wanted) && pending <= wanted && forall o :: o in candidates <==> o in coverage
    ensures Tabulates(coverage, rel, pending) && Complete(rel, pending, candidates)
    ensures SupportedAll(rel, pending) <==> forall q :: q in pending ==> exists o :: Helps(coverage, o, q)
  {
    forall o, q | q in pending && (o, q) in rel ensures o in candidates { assert Helps(coverage, o, q); }
    forall q | q in pending ensures (exists o :: (o, q) in rel) <==> exists o :: Helps(coverage, o, q) {
      if o :| (o, q) in rel { assert Helps(coverage, o, q); }
    }
  }

  // ---------------------------------------------------------------- sorting the minimum sets

  ghost predicate LexSorted(sets: seq<seq<ObjectId>>) { forall i, j :: 0 <= i < j < |sets| ==> LexBefore(sets[i], sets[j]) }

  /** Insert into a sorted list. */
  function Insert(sets: seq<seq<ObjectId>>, x: seq<ObjectId>): seq<seq<ObjectId>> {
    if sets == [] || LexBefore(x, sets[0]) then [x] + sets else [sets[0]] + Insert(sets[1..], x)
  }

  lemma {:induction false} InsertIs(sets: seq<seq<ObjectId>>, x: seq<ObjectId>)
    requires LexSorted(sets) && x !in sets
    ensures LexSorted(Insert(sets, x)) && forall y :: y in Insert(sets, x) <==> y == x || y in sets
    decreases |sets|
  {
    hide LexBefore;
    if sets == [] {
      assert Insert(sets, x) == [x];
    } else if LexBefore(x, sets[0]) {
      forall j | 0 <= j < |sets| ensures LexBefore(x, sets[j]) {
        if j > 0 { LexTransitive(x, sets[0], sets[j]); }
      }
    } else {
      assert sets[0] in sets && sets == [sets[0]] + sets[1..];
      LexTotal(x, sets[0]);
      InsertIs(sets[1..], x);
      forall y | y in Insert(sets[1..], x) ensures LexBefore(sets[0], y) {
        if y != x {
          var j :| 0 <= j < |sets[1..]| && sets[1..][j] == y;
          assert sets[j + 1] == y;
        }
      }
    }
  }

  method SortSets(sets: seq<seq<ObjectId>>) returns (sorted: seq<seq<ObjectId>>)
    requires NoRepeat(sets)
    ensures LexSorted(sorted) && forall x :: x in sorted <==> x in sets
  {
    hide LexBefore, Insert;
    sorted := [];
    for k := 0 to |sets|
      invariant LexSorted(sorted) && forall x :: x in sorted <==> x in sets[..k]
    {
      assert sets[..k + 1] == sets[..k] + [sets[k]];
      assert sets[k] !in sets[..k];
      InsertIs(sorted, sets[k]);
      sorted := Insert(sorted, sets[k]);
    }
    assert sets[..|sets|] == sets;
  }

  // ---------------------------------------------------------------- minimumSufficientEvidenceSet

  datatype EvidenceSet = EvidenceSet(pending: set<PropositionId>, selected: seq<ObjectId>, alternatives: seq<seq<ObjectId>>)

  method PendingOf(propositions: seq<PropositionId>, existing: seq<PropositionSupport>, coordinate: string) returns (pending: set<PropositionId>)
    ensures forall q :: q in pending <==> Pending(propositions, Supports(existing, coordinate), q)
  {
    var required := PropositionsIn(propositions);
    var supported := set s | s in existing && s.coordinate == coordinate && s.propositionId in required :: s.propositionId;
    pending := required - supported;
    forall q ensures q in pending <==> Pending(propositions, Supports(existing, coordinate), q) {
      if q in required && q !in supported {
        forall o ensures (o, q) !in Supports(existing, coordinate) {
          assert forall s :: s in existing && s.coordinate == coordinate && s.propositionId in required ==> s.propositionId in supported;
        }
      }
      if q in supported {
        var s :| s in existing && s.coordinate == coordinate && s.propositionId == q;
        assert (s.objectId, q) in Supports(existing, coordinate);
      }
    }
  }

  /** The sorted minimum sets begin with the least sufficient selection. */
  lemma FirstIsLeast(rel: Relation, pending: set<PropositionId>, sets: seq<seq<ObjectId>>, sorted: seq<seq<ObjectId>>)
    requires AllMinimum(rel, pending, sets) && LexSorted(sorted) && (forall x :: x in sorted <==> x in sets) && sorted != []
    ensures LeastSufficient(rel, pending, sorted[0])
  {
    hide LexBefore, Suffices;
    assert sorted[0] in sorted;
    forall t | Increasing(t) && Suffices(rel, pending, t) ensures t == sorted[0] || Better(sorted[0], t) {
      if |t| == |sorted[0]| {
        assert t in sets;
        var i :| 0 <= i < |sorted| && sorted[i] == t;
      }
    }
  }

  /** `minimumSufficientEvidenceSet`: fails exactly when some pending proposition has no support; otherwise it returns all
      minimum sufficient sets, each once and in lexicographic order, the first of them selected. */
  method MinimumSufficientEvidenceSet(propositions: seq<PropositionId>, available: seq<PropositionSupport>, coordinate: string,
                                      existing: seq<PropositionSupport>) returns (result: Option<EvidenceSet>)
    ensures result.Some? ==>
      && (forall q :: q in result.value.pending <==> Pending(propositions, Supports(existing, coordinate), q))
      && LeastSufficient(Supports(available, coordinate), result.value.pending, result.value.selected)
      && LexSorted([result.value.selected] + result.value.alternatives)
      && AllMinimum(Supports(available, coordinate), result.value.pending, [result.value.selected] + result.value.alternatives)
    ensures result.None? <==>
      exists q :: Pending(propositions, Supports(existing, coordinate), q) && forall o :: (o, q) !in Supports(available, coordinate)
  {
    hide LexBefore, Suffices, Smallest, Selections, TableOf, Pending, LeastSufficient, AllMinimum, Complete, Tabulates, Increasing, Covers, LexSorted, CoveredBy;
    var pending := PendingOf(propositions, existing, coordinate);
    ghost var rel := Supports(available, coordinate);
    var coverage := CoverageOf(available, coordinate, pending);
    var candidates := Sorted(coverage.Keys);
    TableFacts(coverage, rel, pending, pending, candidates);
    var uncovered := FirstUncovered(coverage, pending);
    if uncovered.Some? {
      UncoveredPending(coverage, rel, pending, uncovered.value);
      return None;
    }
    var search := new MinimumSearch(pending, candidates, coverage);
    assert candidates[0..] == candidates && CoveredBy(coverage, []) == {} by { NothingCovered(coverage); }
    search.Search(0, [], {});
    assert search.explored == Selections(candidates, []);
    SmallestAreMinimum(coverage, rel, pending, candidates, search.bestSize, search.minimumSets);
    AllSuffice(rel, pending, candidates);
    SomeMinimum(coverage, rel, pending, candidates, search.bestSize, search.minimumSets);
    var sorted := SortSets(search.minimumSets);
    assert search.minimumSets[0] in sorted;
    FirstIsLeast(rel, pending, search.minimumSets, sorted);
    SortedMinimum(rel, pending, search.minimumSets, sorted);
    assert [sorted[0]] + sorted[1..] == sorted;
    assert SupportedAll(rel, pending);
    forall q | q in pending ensures exists o :: (o, q) in rel { }
    return Some(EvidenceSet(pending, sorted[0], sorted[1..]));
  }

  lemma NothingCovered(coverage: Coverage)
    ensures CoveredBy(coverage, []) == {}
  {
  }

  lemma SomeMinimum(coverage: Coverage, rel: Relation, pending: set<PropositionId>, candidates: seq<ObjectId>, size: Option<nat>, sets: seq<seq<ObjectId>>)
    requires Smallest(coverage, pending, Selections(candidates, []), size, sets) && Increasing(candidates)
    requires Tabulates(coverage, rel, pending) && Suffices(rel, pending, candidates)
    ensures sets != [] && NoRepeat(sets)
  {
    hide Selections, Covers, Suffices, Tabulates;
    CoversIffSuffices(coverage, rel, pending, candidates);
    AllSelections(candidates, candidates);
  }

  lemma SortedMinimum(rel: Relation, pending: set<PropositionId>, sets: seq<seq<ObjectId>>, sorted: seq<seq<ObjectId>>)
    requires AllMinimum(rel, pending, sets) && LexSorted(sorted) && forall x :: x in sorted <==> x in sets
    ensures AllMinimum(rel, pending, sorted)
  {
    hide LexBefore, Suffices;
    forall i, j | 0 <= i < j < |sorted| ensures sorted[i] != sorted[j] { LexTotal(sorted[i], sorted[j]); }
  }

  // ---------------------------------------------------------------- minimumEvidenceCover

  /** `minimumEvidenceCover`: fails exactly when some obligation has no evidence; otherwise it returns the least sufficient
      set, the one `minimumSufficientEvidenceSet` selects. */
  method MinimumEvidenceCover(obligations: seq<PropositionId>, rows: seq<EvidenceRow>) returns (result: Option<seq<ObjectId>>)
    ensures result.Some? ==> LeastSufficient(Witnesses(rows), PropositionsIn(obligations), result.value)
    ensures result.None? <==> exists q :: q in obligations && forall e :: (e, q) !in Witnesses(rows)
  {
    hide LexBefore, Suffices, Foremost, Selections, TableOf, LeastSufficient, Complete, Tabulates, Increasing, Covers, Precedes, CoveredBy, Better;
    var required := PropositionsIn(obligations);
    ghost var rel := Witnesses(rows);
    if |obligations| == 0 {
      EmptyIsLeast(rel, required);
      return Some([]);
    }
    var coverage := WitnessTable(rows);
    var candidates := Sorted(coverage.Keys);
    TableOfAny(coverage, rows, required);
    TableFacts(coverage, rel, required + Mentioned(rows), required, candidates);
    var uncovered := FirstUncovered(coverage, required);
    if uncovered.Some? {
      UncoveredPending(coverage, rel, required + Mentioned(rows), uncovered.value);
      return None;
    }
    var search := new CoverSearch(required, candidates, coverage);
    assert candidates[0..] == candidates && CoveredBy(coverage, []) == {} by { NothingCovered(coverage); }
    assert Precedes({}, Selections(candidates, [])) by { NothingPrecedes(Selections(candidates, [])); }
    search.Search(0, [], {});
    assert search.explored == Selections(candidates, []);
    ForemostIsLeast(coverage, rel, required, candidates, search.best);
    AllSuffice(rel, required, candidates);
    forall q | q in obligations ensures exists e :: (e, q) in rel { assert q in required; }
    return search.best;
  }

  lemma NothingPrecedes(later: set<seq<ObjectId>>)
    ensures Precedes({}, later)
  {
  }

  lemma EmptyIsLeast(rel: Relation, pending: set<PropositionId>)
    requires pending == {}
    ensures LeastSufficient(rel, pending, [])
  {
  }

  /** Wanting propositions that no row mentions changes nothing. */
  lemma TableOfAny(coverage: Coverage, rows: seq<EvidenceRow>, more: set<PropositionId>)
    requires TableOf(coverage, Witnesses(rows), Mentioned(rows))
    ensures TableOf(coverage, Witnesses(rows), more + Mentioned(rows))
  {
    forall o, q ensures Helps(coverage, o, q) <==> (o, q) in Witnesses(rows) && q in more + Mentioned(rows) {
      assert Helps(coverage, o, q) <==> (o, q) in Witnesses(rows) && q in Mentioned(rows);
    }
  }

  lemma UncoveredPending(coverage: Coverage, rel: Relation, wanted: set<PropositionId>, q: PropositionId)
    requires TableOf(coverage, rel, wanted) && q in wanted && forall o :: !Helps(coverage, o, q)
    ensures forall o :: (o, q) !in rel
  {
    forall o ensures (o, q) !in rel { assert !Helps(coverage, o, q); }
  }
}
