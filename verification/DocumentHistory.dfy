/** Following the amendment chain of `db/repositories/source_document.py`: what stays reconstructable. */
module DocumentHistory {
  import opened Basics
  import opened DocumentVersions

  // ------------------------------------------------------ following the chain

  /** The versions met by following `superseded_by` from `i`, starting with `i` itself. */
  ghost function Chain(versions: seq<DocumentVersion>, i: nat): (path: seq<nat>)
    requires VersionTable(versions) && i < |versions|
    ensures path != [] && path[0] == i
    ensures forall k | 0 <= k < |path| :: path[k] < |versions|
    decreases |versions| - i
  {
    assert PointsForward(versions, i);
    if versions[i].supersededBy.None? then [i] else [i] + Chain(versions, versions[i].supersededBy.value)
  }

  /** The numbers go up by one along the path, and so never repeat; neither do the versions. */
  ghost predicate Climbs(versions: seq<DocumentVersion>, path: seq<nat>)
  {
    && (forall k | 0 <= k < |path| :: path[k] < |versions|)
    && (forall k | 0 <= k < |path| :: versions[path[k]].number == versions[path[0]].number + k)
    && (forall k, m | 0 <= k < m < |path| :: path[k] < path[m])
  }

  lemma ConsClimbs(versions: seq<DocumentVersion>, i: nat, rest: seq<nat>)
    requires Climbs(versions, rest) && rest != []
    requires i < rest[0] && versions[rest[0]].number == versions[i].number + 1
    ensures Climbs(versions, [i] + rest)
  {
    var path := [i] + rest;
    forall k | 0 <= k < |path|
      ensures path[k] < |versions| && versions[path[k]].number == versions[path[0]].number + k {
      if k > 0 {
        assert path[k] == rest[k - 1];
      }
    }
    forall k, m | 0 <= k < m < |path| ensures path[k] < path[m] {
      assert path[m] == rest[m - 1];
      assert k > 0 ==> path[k] == rest[k - 1];
      assert m > 1 ==> rest[0] < rest[m - 1];
    }
  }

  /**
   * Following the chain ends, at a version nothing supersedes; on the way the version number goes up
   * by one at each step, so no version is met twice.
   */
  lemma {:induction false} ChainClimbs(versions: seq<DocumentVersion>, i: nat)
    requires VersionTable(versions) && i < |versions|
    ensures var path := Chain(versions, i);
            && versions[path[|path| - 1]].supersededBy == None
            && Climbs(versions, path)
    decreases |versions| - i
  {
    assert PointsForward(versions, i);
    if versions[i].supersededBy.Some? {
      var n := versions[i].supersededBy.value;
      ChainClimbs(versions, n);
      var path, rest := Chain(versions, i), Chain(versions, n);
      assert path == [i] + rest && path[|path| - 1] == rest[|rest| - 1];
      ConsClimbs(versions, i, rest);
    }
  }

  /** Following the chain from version `i` meets version `n`. */
  ghost predicate Meets(versions: seq<DocumentVersion>, i: nat, n: nat)
    requires VersionTable(versions) && i < |versions|
  {
    n in Chain(versions, i)
  }

  lemma {:induction false} MeetsSteps(versions: seq<DocumentVersion>, i: nat)
    requires VersionTable(versions) && i < |versions|
    ensures var next := versions[i].supersededBy;
            && (next.None? ==> Chain(versions, i) == [i])
            && (next.Some? ==> next.value < |versions| && Chain(versions, i) == [i] + Chain(versions, next.value))
    ensures forall n: nat | Meets(versions, i, n) :: i <= n < |versions|
    decreases |versions| - i
  {
    assert PointsForward(versions, i);
    if versions[i].supersededBy.Some? {
      var next := versions[i].supersededBy.value;
      MeetsSteps(versions, next);
      forall n: nat | Meets(versions, i, n) ensures i <= n < |versions| {
        assert n == i || Meets(versions, next, n);
      }
    }
  }

  /** Following the chain from version `i` comes to some version of `document`. */
  ghost predicate Comes(versions: seq<DocumentVersion>, i: nat, document: nat)
    requires VersionTable(versions) && i < |versions|
  {
    exists x: nat | x < |versions| :: versions[x].document == document && Meets(versions, i, x)
  }

  // --------------------------------------------- what one amendment must keep

  ghost predicate Accepted(versions: seq<DocumentVersion>, prior: nat, amending: nat)
  {
    && VersionTable(versions)
    && TopVersion(versions, prior).Some?
    && !NumberTaken(versions, amending, NextNumber(versions, prior))
  }

  /** A version of `document` that a version of another document points to. */
  ghost predicate Entered(versions: seq<DocumentVersion>, document: nat, x: nat)
  {
    && x < |versions| && versions[x].document == document
    && exists y | 0 <= y < |versions| :: versions[y].document != document && versions[y].supersededBy == Some(x)
  }

  /**
   * The correction history stays reconstructable: no version followed before is lost, whoever comes
   * to `prior` from another document goes on to the amendment, and so does the latest version `p` of
   * `prior`, past which everything that followed `amending` is met too.
   */
  ghost predicate KeepsHistory(before: seq<DocumentVersion>, after: seq<DocumentVersion>, prior: nat, amending: nat,
                               p: nat)
    requires VersionTable(before) && VersionTable(after) && p < |before| <= |after|
  {
    && (forall i: nat, n: nat | i < |before| && Meets(before, i, n) :: Meets(after, i, n))
    && (forall i: nat | i < |before| && before[i].document != prior && Comes(before, i, prior) ::
       Meets(after, i, |before|))
    && Meets(after, p, |before|)
    && (forall j: nat, n: nat | j < |before| && before[j].document == amending && Meets(before, j, n) && n != j ::
          Meets(after, p, n))
  }

  /**
   * What a caller can look up first: the latest version `p` of `prior` has no successor, no version of
   * `amending` has one other than `p`, and every version of `prior` entered from outside leads to `p`.
   */
  ghost predicate Extendable(versions: seq<DocumentVersion>, prior: nat, amending: nat, p: nat)
    requires VersionTable(versions) && p < |versions|
  {
    && versions[p].supersededBy.None?
    && (forall j | 0 <= j < |versions| && versions[j].document == amending ::
          versions[j].supersededBy in {None, Some(p)})
    && (forall x: nat | Entered(versions, prior, x) :: Meets(versions, x, p))
  }

  /** The amendment's own chain, and the pointer to it. */
  lemma AmendShape(versions: seq<DocumentVersion>, prior: nat, amending: nat)
    requires Accepted(versions, prior, amending)
    ensures var after, p, w := Amend(versions, prior, amending), TopVersion(versions, prior).value.id, |versions|;
            && VersionTable(after) && |after| == w + 1 && p < w
            && versions[p].document == prior && after[p].supersededBy == Some(w)
            && after[w].document == amending && after[w].supersededBy.None?
            && (forall i | 0 <= i < w && i != p :: after[i] == versions[i])
            && (forall i | 0 <= i < w :: after[i].document == versions[i].document)
            && Chain(after, w) == [w] && Chain(after, p) == [p, w]
  {
    AmendKeepsTable(versions, prior, amending);
    var after := Amend(versions, prior, amending);
    MeetsSteps(after, |versions|);
    MeetsSteps(after, TopVersion(versions, prior).value.id);
  }

  /** When `p` was an end, the chains through it grow by the amendment and the others stay. */
  lemma {:induction false} ChainAfter(versions: seq<DocumentVersion>, prior: nat, amending: nat, i: nat)
    requires Accepted(versions, prior, amending) && i < |versions|
    requires TopVersion(versions, prior).value.supersededBy.None?
    ensures var after, p := Amend(versions, prior, amending), TopVersion(versions, prior).value.id;
            && VersionTable(after) && i < |after|
            && Chain(after, i) == if Meets(versions, i, p) then Chain(versions, i) + [|versions|]
               else Chain(versions, i)
    decreases |versions| - i
  {
    AmendShape(versions, prior, amending);
    var after, p := Amend(versions, prior, amending), TopVersion(versions, prior).value.id;
    MeetsSteps(versions, i);
    MeetsSteps(after, i);
    assert versions[p] == TopVersion(versions, prior).value;
    assert PointsForward(versions, i);
    if i != p && versions[i].supersededBy.Some? {
      var next := versions[i].supersededBy.value;
      ChainAfter(versions, prior, amending, next);
      assert Meets(versions, i, p) <==> Meets(versions, next, p);
    }
  }

  /** Coming to `prior` from another document, the chain enters it somewhere. */
  lemma {:induction false} EntersSomewhere(versions: seq<DocumentVersion>, prior: nat, p: nat, i: nat, x: nat)
    requires VersionTable(versions) && i < |versions| && x < |versions| && p < |versions|
    requires versions[i].document != prior && versions[x].document == prior && Meets(versions, i, x)
    requires forall e: nat | Entered(versions, prior, e) :: Meets(versions, e, p)
    ensures Meets(versions, i, p)
    decreases |versions| - i
  {
    MeetsSteps(versions, i);
    assert PointsForward(versions, i);
    var next := versions[i].supersededBy.value;
    if versions[next].document == prior {
      assert Entered(versions, prior, next);
    } else {
      EntersSomewhere(versions, prior, p, next, x);
    }
  }

  /** From any version, of `prior` or not, the amendment is met exactly when `p` was. */
  lemma AmendmentIsMetIff(versions: seq<DocumentVersion>, prior: nat, amending: nat, i: nat)
    requires Accepted(versions, prior, amending) && i < |versions|
    requires TopVersion(versions, prior).value.supersededBy.None?
    ensures var after := Amend(versions, prior, amending);
            && VersionTable(after) && i < |after|
            && (Meets(after, i, |versions|) <==> Meets(versions, i, TopVersion(versions, prior).value.id))
  {
    ChainAfter(versions, prior, amending, i);
    MeetsSteps(versions, i);
  }

  lemma ExtendableKeeps(versions: seq<DocumentVersion>, prior: nat, amending: nat)
    requires Accepted(versions, prior, amending)
    requires Extendable(versions, prior, amending, TopVersion(versions, prior).value.id)
    ensures var after := Amend(versions, prior, amending);
            && VersionTable(after) && |versions| <= |after|
            && KeepsHistory(versions, after, prior, amending, TopVersion(versions, prior).value.id)
  {
    AmendShape(versions, prior, amending);
    var after, p := Amend(versions, prior, amending), TopVersion(versions, prior).value.id;
    forall i: nat, n: nat | i < |versions| && Meets(versions, i, n) ensures Meets(after, i, n) {
      ChainAfter(versions, prior, amending, i);
    }
    forall i: nat | i < |versions| && versions[i].document != prior && Comes(versions, i, prior)
      ensures Meets(after, i, |versions|) {
      var x: nat :| x < |versions| && versions[x].document == prior && Meets(versions, i, x);
      EntersSomewhere(versions, prior, p, i, x);
      ChainAfter(versions, prior, amending, i);
    }
    forall j: nat, n: nat | j < |versions| && versions[j].document == amending && Meets(versions, j, n) && n != j
      ensures Meets(after, p, n) {
      MeetsSteps(versions, j);
      MeetsSteps(versions, p);
    }
  }

  lemma KeepsIsExtendable(versions: seq<DocumentVersion>, prior: nat, amending: nat)
    requires Accepted(versions, prior, amending)
    requires AmendKeepsHistory(versions, prior, amending)
    ensures Extendable(versions, prior, amending, TopVersion(versions, prior).value.id)
  {
    AmendShape(versions, prior, amending);
    var after, p := Amend(versions, prior, amending), TopVersion(versions, prior).value.id;
    MeetsSteps(versions, p);
    assert versions[p] == TopVersion(versions, prior).value && PointsForward(versions, p);
    if versions[p].supersededBy.Some? {
      assert Meets(versions, p, versions[p].supersededBy.value);
    }
    forall j | 0 <= j < |versions| && versions[j].document == amending
      ensures versions[j].supersededBy in {None, Some(p)} {
      MeetsSteps(versions, j);
      assert PointsForward(versions, j);
      if versions[j].supersededBy.Some? {
        assert Meets(versions, j, versions[j].supersededBy.value);
      }
    }
    forall x: nat | Entered(versions, prior, x) ensures Meets(versions, x, p) {
      var y :| 0 <= y < |versions| && versions[y].document != prior && versions[y].supersededBy == Some(x);
      MeetsSteps(versions, y);
      assert Meets(versions, y, x) && Comes(versions, y, prior);
      ChainAfter(versions, prior, amending, y);
    }
  }

  ghost predicate AmendKeepsHistory(versions: seq<DocumentVersion>, prior: nat, amending: nat)
    requires Accepted(versions, prior, amending)
  {
    AmendKeepsTable(versions, prior, amending);
    KeepsHistory(versions, Amend(versions, prior, amending), prior, amending, TopVersion(versions, prior).value.id)
  }

  /**
   * The history is promised to be always reconstructable.  An accepted amendment keeps it so exactly
   * when it is extendable: it fails when `prior` was amended before, when `amending` was, and when
   * an earlier amendment left `prior` behind its latest version.
   */
  lemma AmendmentKeepsHistoryIff(versions: seq<DocumentVersion>, prior: nat, amending: nat)
    requires Accepted(versions, prior, amending)
    ensures AmendKeepsHistory(versions, prior, amending)
       <==> Extendable(versions, prior, amending, TopVersion(versions, prior).value.id)
  {
    if Extendable(versions, prior, amending, TopVersion(versions, prior).value.id) {
      ExtendableKeeps(versions, prior, amending);
    }
    if AmendKeepsHistory(versions, prior, amending) {
      KeepsIsExtendable(versions, prior, amending);
    }
  }

  // ------------------------------------------------------------ whole runs

  /** A new document starts its own chain, or one document is recorded as the amendment of another. */
  datatype Step = Ingest(document: nat) | Amendment(prior: nat, amending: nat)

  /** An amendment made: version `from` of `prior` was pointed to `version`. */
  datatype Record = Record(prior: nat, from: nat, version: nat)

  datatype State = State(versions: seq<DocumentVersion>, log: seq<Record>)

  function OriginalOf(versions: seq<DocumentVersion>, document: nat): DocumentVersion
  {
    DocumentVersion(|versions|, document, 1, Original, None)
  }

  ghost predicate Allowed(versions: seq<DocumentVersion>, step: Step)
    requires VersionTable(versions)
  {
    match step
    case Ingest(document) => forall v | v in versions :: v.document < document
    case Amendment(prior, amending) =>
      Accepted(versions, prior, amending) && Extendable(versions, prior, amending, TopVersion(versions, prior).value.id)
  }

  ghost function Next(st: State, step: Step): (after: State)
    requires VersionTable(st.versions) && Allowed(st.versions, step)
    ensures VersionTable(after.versions) && |after.versions| == |st.versions| + 1
  {
    match step
    case Ingest(document) =>
      NewChainKeepsTable(st.versions, document);
      State(st.versions + [OriginalOf(st.versions, document)], st.log)
    case Amendment(prior, amending) =>
      AmendShape(st.versions, prior, amending);
      State(Amend(st.versions, prior, amending),
            st.log + [Record(prior, TopVersion(st.versions, prior).value.id, |st.versions|)])
  }

  /** The state after a run all of whose steps are allowed where they are taken. */
  ghost function Run(steps: seq<Step>): (st: Option<State>)
    ensures st.Some? ==> VersionTable(st.value.versions)
  {
    if steps == [] then Some(State([], [])) else
      var before := Run(steps[..|steps| - 1]);
      if before.Some? && Allowed(before.value.versions, steps[|steps| - 1])
      then Some(Next(before.value, steps[|steps| - 1])) else None
  }

  /**
   * The version the amendment was recorded on still points to it, and whoever comes to the amended
   * document from another one, now or later, goes on to this amendment of it.
   */
  ghost predicate Followed(versions: seq<DocumentVersion>, g: Record)
    requires VersionTable(versions)
  {
    && g.from < g.version < |versions| && versions[g.from].document == g.prior
    && versions[g.from].supersededBy == Some(g.version)
    && forall i: nat | i < |versions| && versions[i].document != g.prior && Comes(versions, i, g.prior) ::
         Meets(versions, i, g.version)
  }

  /** From any version at all, an amendment is met exactly when the version it was recorded on is. */
  lemma {:induction false} RecordedIsMetIff(versions: seq<DocumentVersion>, g: Record, i: nat)
    requires VersionTable(versions) && Followed(versions, g) && i < |versions|
    ensures Meets(versions, i, g.version) <==> i == g.version || Meets(versions, i, g.from)
    decreases |versions| - i
  {
    MeetsSteps(versions, i);
    assert PointsForward(versions, i) && PointsForward(versions, g.from);
    if versions[i].supersededBy.Some? {
      var next := versions[i].supersededBy.value;
      RecordedIsMetIff(versions, g, next);
      MeetsSteps(versions, next);
      assert next == g.version <==> i == g.from;
    }
  }

  ghost predicate Reconstructs(versions: seq<DocumentVersion>, log: seq<Record>)
    requires VersionTable(versions)
  {
    forall n | 0 <= n < |log| :: Followed(versions, log[n])
  }

  lemma {:induction false} ChainUntouched(versions: seq<DocumentVersion>, document: nat, i: nat)
    requires VersionTable(versions) && (forall v | v in versions :: v.document < document) && i < |versions|
    ensures var after := versions + [OriginalOf(versions, document)];
            VersionTable(after) && Chain(after, i) == Chain(versions, i)
    decreases |versions| - i
  {
    NewChainKeepsTable(versions, document);
    assert PointsForward(versions, i);
    if versions[i].supersededBy.Some? {
      ChainUntouched(versions, document, versions[i].supersededBy.value);
    }
  }

  lemma IngestKeepsComes(versions: seq<DocumentVersion>, document: nat, i: nat, d: nat)
    requires VersionTable(versions) && (forall v | v in versions :: v.document < document) && i < |versions|
    ensures var after := versions + [OriginalOf(versions, document)];
            VersionTable(after) && (Comes(after, i, d) ==> Comes(versions, i, d))
  {
    ChainUntouched(versions, document, i);
    MeetsSteps(versions, i);
    var after := versions + [OriginalOf(versions, document)];
    if Comes(after, i, d) {
      var x: nat :| x < |after| && after[x].document == d && Meets(after, i, x);
      assert Meets(versions, i, x);
    }
  }

  lemma IngestKeeps(versions: seq<DocumentVersion>, document: nat, g: Record)
    requires VersionTable(versions) && (forall v | v in versions :: v.document < document) && Followed(versions, g)
    ensures var after := versions + [OriginalOf(versions, document)];
            VersionTable(after) && Followed(after, g)
  {
    var after := versions + [OriginalOf(versions, document)];
    NewChainKeepsTable(versions, document);
    ChainUntouched(versions, document, g.from);
    MeetsSteps(after, |versions|);
    forall i: nat | i < |after| && after[i].document != g.prior && Comes(after, i, g.prior)
      ensures Meets(after, i, g.version) {
      if i < |versions| {
        ChainUntouched(versions, document, i);
        IngestKeepsComes(versions, document, i, g.prior);
      }
    }
  }

  lemma AmendedComes(versions: seq<DocumentVersion>, prior: nat, amending: nat, i: nat, d: nat)
    requires Accepted(versions, prior, amending) && i < |versions|
    requires TopVersion(versions, prior).value.supersededBy.None?
    ensures var after, p := Amend(versions, prior, amending), TopVersion(versions, prior).value.id;
            && VersionTable(after) && i < |after|
            && (Comes(after, i, d) ==> Comes(versions, i, d) || (d == amending && Meets(versions, i, p)))
  {
    AmendShape(versions, prior, amending);
    ChainAfter(versions, prior, amending, i);
    MeetsSteps(versions, i);
    var after := Amend(versions, prior, amending);
    if Comes(after, i, d) {
      var x: nat :| x < |after| && after[x].document == d && Meets(after, i, x);
      assert x < |versions| ==> Meets(versions, i, x);
    }
  }

  lemma AmendKeepsFollowed(versions: seq<DocumentVersion>, prior: nat, amending: nat, g: Record, i: nat)
    requires VersionTable(versions) && Allowed(versions, Amendment(prior, amending)) && Followed(versions, g)
    requires i < |versions| && versions[i].document != g.prior
    ensures var after := Amend(versions, prior, amending);
            VersionTable(after) && i < |after| && (Comes(after, i, g.prior) ==> Meets(after, i, g.version))
  {
    AmendShape(versions, prior, amending);
    var p := TopVersion(versions, prior).value.id;
    assert versions[p] == TopVersion(versions, prior).value;
    AmendedComes(versions, prior, amending, i, g.prior);
    ChainAfter(versions, prior, amending, i);
    if g.prior == amending {
      AmendedBefore(versions, prior, amending, g);
    }
  }

  lemma AmendKeeps(versions: seq<DocumentVersion>, prior: nat, amending: nat, g: Record)
    requires VersionTable(versions) && Allowed(versions, Amendment(prior, amending)) && Followed(versions, g)
    ensures VersionTable(Amend(versions, prior, amending)) && Followed(Amend(versions, prior, amending), g)
  {
    AmendShape(versions, prior, amending);
    var after, p, w := Amend(versions, prior, amending), TopVersion(versions, prior).value.id, |versions|;
    assert versions[p] == TopVersion(versions, prior).value;
    ChainAfter(versions, prior, amending, g.from);
    forall i: nat | i < |after| && after[i].document != g.prior && Comes(after, i, g.prior)
      ensures Meets(after, i, g.version) {
      if i < w {
        AmendKeepsFollowed(versions, prior, amending, g, i);
      }
    }
  }

  /** The amending document itself was amended before only by `p`, so that amendment is met on the way. */
  lemma AmendedBefore(versions: seq<DocumentVersion>, prior: nat, amending: nat, g: Record)
    requires VersionTable(versions) && Allowed(versions, Amendment(prior, amending)) && Followed(versions, g)
    requires g.prior == amending
    ensures g.version == TopVersion(versions, prior).value.id
  {
    var p := TopVersion(versions, prior).value.id;
    assert versions[p] == TopVersion(versions, prior).value;
    MeetsSteps(versions, g.from);
    MeetsSteps(versions, p);
  }

  lemma NewRecord(versions: seq<DocumentVersion>, prior: nat, amending: nat)
    requires VersionTable(versions) && Allowed(versions, Amendment(prior, amending))
    ensures var after := Amend(versions, prior, amending);
            VersionTable(after) && Followed(after, Record(prior, TopVersion(versions, prior).value.id, |versions|))
  {
    AmendShape(versions, prior, amending);
    ExtendableKeeps(versions, prior, amending);
    var after, p, w := Amend(versions, prior, amending), TopVersion(versions, prior).value.id, |versions|;
    assert versions[p] == TopVersion(versions, prior).value;
    forall i: nat | i < |after| && after[i].document != prior && Comes(after, i, prior) ensures Meets(after, i, w) {
      if i < w {
        AmendedComes(versions, prior, amending, i, prior);
        ChainAfter(versions, prior, amending, i);
      }
    }
  }

  /**
   * Over every run of ingestions and extendable amendments the correction history stays
   * reconstructable: following the pointers meets every amendment ever recorded for any other
   * document on the way, amendments of amendments included, and from the version it was recorded on.
   */
  lemma {:induction false} RunsReconstruct(steps: seq<Step>)
    requires Run(steps).Some?
    ensures Reconstructs(Run(steps).value.versions, Run(steps).value.log)
  {
    if steps != [] {
      var before, step := Run(steps[..|steps| - 1]).value, steps[|steps| - 1];
      RunsReconstruct(steps[..|steps| - 1]);
      NextReconstructs(before, step);
    }
  }

  /**
   * The exact extent of that, from any version of any document: a recorded amendment is met exactly
   * from itself and from where the version it was recorded on is met.  The amended document's own
   * other versions need not be such places.
   */
  lemma RunsMeetExactly(steps: seq<Step>, n: nat, i: nat)
    requires Run(steps).Some?
    requires n < |Run(steps).value.log| && i < |Run(steps).value.versions|
    ensures var versions, g := Run(steps).value.versions, Run(steps).value.log[n];
            && g.from < |versions|
            && (Meets(versions, i, g.version) <==> i == g.version || Meets(versions, i, g.from))
  {
    RunsReconstruct(steps);
    RecordedIsMetIff(Run(steps).value.versions, Run(steps).value.log[n], i);
  }

  lemma NextReconstructs(st: State, step: Step)
    requires VersionTable(st.versions) && Allowed(st.versions, step) && Reconstructs(st.versions, st.log)
    ensures Reconstructs(Next(st, step).versions, Next(st, step).log)
  {
    var after := Next(st, step);
    forall n | 0 <= n < |after.log| ensures Followed(after.versions, after.log[n]) {
      match step
      case Ingest(document) =>
        IngestKeeps(st.versions, document, st.log[n]);
      case Amendment(prior, amending) =>
        if n < |st.log| {
          AmendKeeps(st.versions, prior, amending, st.log[n]);
        } else {
          NewRecord(st.versions, prior, amending);
        }
    }
  }

  // -------------------------------------------------------- concrete failures

  lemma RunAppend(steps: seq<Step>, step: Step)
    ensures var before := Run(steps);
            Run(steps + [step]) ==
            if before.Some? && Allowed(before.value.versions, step) then Some(Next(before.value, step)) else None
  {
    assert (steps + [step])[..|steps|] == steps;
  }

  lemma RunIngest(steps: seq<Step>, document: nat)
    requires Run(steps).Some? && forall v | v in Run(steps).value.versions :: v.document < document
    ensures var before := Run(steps).value;
            Run(steps + [Ingest(document)])
              == Some(State(before.versions + [OriginalOf(before.versions, document)], before.log))
  {
    RunAppend(steps, Ingest(document));
  }

  function Originals(n: nat): seq<DocumentVersion>
  {
    seq(n, i requires 0 <= i < n => DocumentVersion(i, i, 1, Original, None))
  }

  function Ingestions(n: nat): seq<Step>
  {
    seq(n, i requires 0 <= i < n => Ingest(i))
  }

  lemma {:induction false} RunIngestions(n: nat)
    ensures Run(Ingestions(n)) == Some(State(Originals(n), []))
  {
    if n == 0 {
      assert Ingestions(0) == [] && Originals(0) == [];
    } else {
      RunIngestions(n - 1);
      RunIngest(Ingestions(n - 1), n - 1);
      assert Ingestions(n) == Ingestions(n - 1) + [Ingest(n - 1)];
      assert Originals(n) == Originals(n - 1) + [OriginalOf(Originals(n - 1), n - 1)];
    }
  }

  lemma TopOriginal(n: nat, document: nat)
    requires document < n && VersionTable(Originals(n))
    ensures TopVersion(Originals(n), document) == Some(Originals(n)[document])
  {
    assert Originals(n)[document].document == document;
    var top := TopVersion(Originals(n), document);
    assert top.value in Originals(n);
  }

  lemma OriginalsAllow(n: nat, prior: nat, amending: nat)
    requires prior < n && amending < n && prior != amending && VersionTable(Originals(n))
    ensures TopVersion(Originals(n), prior) == Some(Originals(n)[prior])
    ensures Allowed(Originals(n), Amendment(prior, amending))
  {
    var versions := Originals(n);
    TopOriginal(n, prior);
    assert !NumberTaken(versions, amending, 2);
    assert forall x: nat :: !Entered(versions, prior, x);
  }

  /** Ingest `n` documents, then record one amendment. */
  lemma OneAmendment(n: nat, prior: nat, amending: nat)
    requires prior < n && amending < n && prior != amending
    ensures var st := Run(Ingestions(n) + [Amendment(prior, amending)]);
            && VersionTable(Originals(n)) && st.Some?
            && st.value == State(Amend(Originals(n), prior, amending), [Record(prior, prior, n)])
            && TopVersion(Originals(n), prior) == Some(Originals(n)[prior])
            && Accepted(Originals(n), prior, amending)
  {
    RunIngestions(n);
    OriginalsAllow(n, prior, amending);
    RunAmend(Ingestions(n), prior, amending);
    assert [] + [Record(prior, prior, n)] == [Record(prior, prior, n)];
  }

  lemma RunAmend(steps: seq<Step>, prior: nat, amending: nat)
    requires Run(steps).Some? && Allowed(Run(steps).value.versions, Amendment(prior, amending))
    ensures var before := Run(steps).value;
            Run(steps + [Amendment(prior, amending)])
            == Some(State(Amend(before.versions, prior, amending),
                          before.log + [Record(prior, TopVersion(before.versions, prior).value.id, |before.versions|)]))
  {
    RunAppend(steps, Amendment(prior, amending));
  }

  /** A document without a second version or a successor is still at its original. */
  lemma StillOriginal(n: nat, prior: nat, amending: nat, document: nat)
    requires prior < n && amending < n && prior != amending && document < n && document != amending
    ensures VersionTable(Amend(Originals(n), prior, amending))
    ensures var versions := Amend(Originals(n), prior, amending);
            document < |versions| && versions[document].document == document
            && TopVersion(versions, document) == Some(versions[document])
  {
    OneAmendment(n, prior, amending);
    AmendShape(Originals(n), prior, amending);
    var versions := Amend(Originals(n), prior, amending);
    assert versions[document].document == document;
    var top := TopVersion(versions, document);
    assert top.value in versions && top.value.document == document;
  }

  /** Amending one document twice: the second amendment is accepted and the first is no longer met. */
  lemma AmendedTwiceWitness() returns (steps: seq<Step>, prior: nat, amending: nat)
    ensures Run(steps).Some?
    ensures var versions := Run(steps).value.versions;
            Accepted(versions, prior, amending) && !AmendKeepsHistory(versions, prior, amending)
  {
    steps, prior, amending := Ingestions(3) + [Amendment(0, 1)], 0, 2;
    OneAmendment(3, 0, 1);
    AmendShape(Originals(3), 0, 1);
    StillOriginal(3, 0, 1, 0);
    AmendmentKeepsHistoryIff(Run(steps).value.versions, 0, 2);
  }

  /** Amending with a document that was amended itself: what followed it is not met from the amended one. */
  lemma AmendedByAmendedWitness() returns (steps: seq<Step>, prior: nat, amending: nat)
    ensures Run(steps).Some?
    ensures var versions := Run(steps).value.versions;
            Accepted(versions, prior, amending) && !AmendKeepsHistory(versions, prior, amending)
            && TopVersion(versions, prior).value.supersededBy.None?
  {
    steps, prior, amending := Ingestions(3) + [Amendment(1, 2)], 0, 1;
    OneAmendment(3, 1, 2);
    AmendShape(Originals(3), 1, 2);
    StillOriginal(3, 1, 2, 0);
    StillOriginal(3, 1, 2, 1);
    AmendmentKeepsHistoryIff(Run(steps).value.versions, 0, 1);
  }

  /**
   * A document that is an amendment itself keeps its own original as a dead end: in a run that keeps
   * the history, an amendment of the document is not met from there.
   */
  lemma DeadEndWitness() returns (steps: seq<Step>, n: nat, i: nat)
    ensures Run(steps).Some? && n < |Run(steps).value.log| && i < |Run(steps).value.versions|
    ensures var versions, g := Run(steps).value.versions, Run(steps).value.log[n];
            versions[i].document == g.prior && !Meets(versions, i, g.version)
  {
    steps, n, i := Ingestions(3) + [Amendment(0, 1)] + [Amendment(1, 2)], 1, 1;
    SecondAmendment();
    AfterFirst();
    AmendShape(Originals(3), 0, 1);
    var once := Amend(Originals(3), 0, 1);
    SecondIsAllowed(once);
    AmendShape(once, 1, 2);
    MeetsSteps(Amend(once, 1, 2), 1);
  }

  lemma SecondAmendment()
    ensures VersionTable(Originals(3)) && VersionTable(Amend(Originals(3), 0, 1))
    ensures var once := Amend(Originals(3), 0, 1);
            Run(Ingestions(3) + [Amendment(0, 1)] + [Amendment(1, 2)])
            == Some(State(Amend(once, 1, 2), [Record(0, 0, 3), Record(1, 3, 4)]))
  {
    OneAmendment(3, 0, 1);
    AfterFirst();
    AmendShape(Originals(3), 0, 1);
    SecondIsAllowed(Amend(Originals(3), 0, 1));
    RunAmend(Ingestions(3) + [Amendment(0, 1)], 1, 2);
    assert [Record(0, 0, 3)] + [Record(1, 3, 4)] == [Record(0, 0, 3), Record(1, 3, 4)];
  }

  /** Three documents, the first amended by the second. */
  ghost predicate FirstAmended(versions: seq<DocumentVersion>)
  {
    && |versions| == 4
    && (forall i | 0 <= i < 3 :: versions[i].document == i && versions[i].number == 1)
    && versions[3].document == 1 && versions[3].number == 2
    && versions[0].supersededBy == Some(3)
    && (forall i | 1 <= i < 4 :: versions[i].supersededBy == None)
  }

  lemma AfterFirst()
    ensures VersionTable(Originals(3)) && Accepted(Originals(3), 0, 1)
    ensures FirstAmended(Amend(Originals(3), 0, 1))
  {
    OneAmendment(3, 0, 1);
    AmendShape(Originals(3), 0, 1);
  }

  lemma TopOfSecond(versions: seq<DocumentVersion>)
    requires VersionTable(versions) && FirstAmended(versions)
    ensures TopVersion(versions, 1) == Some(versions[3])
  {
    var top := TopVersion(versions, 1);
    assert versions[1].document == 1 && versions[3].document == 1;
    assert top.value in versions;
  }

  lemma SecondIsAllowed(versions: seq<DocumentVersion>)
    requires VersionTable(versions) && FirstAmended(versions)
    ensures TopVersion(versions, 1) == Some(versions[3])
    ensures Allowed(versions, Amendment(1, 2))
  {
    TopOfSecond(versions);
    assert !NumberTaken(versions, 2, 3);
    MeetsSteps(versions, 3);
    assert forall x: nat | Entered(versions, 1, x) :: x == 3;
  }
}
