/** `db/repositories/thesis.py`: append-only thesis versions and the callers that use them. */
module Theses {
  import opened Basics
  import opened Sorting
  import opened Text

  datatype Status = Active | Watching | Exited | Avoided

  datatype Content = Content(text: Option<string>, horizonMonths: Option<int>, asOf: Option<int>,
                             exitPrice: Option<real>, outcomeNotes: Option<string>)

  datatype Thesis = Thesis(
    id: nat, user: string, symbol: string, status: Status, content: Content, version: int, supersedes: Option<nat>)

  /** `InvestmentThesisUpdate`: absent fields leave the predecessor's value. */
  datatype Changes = Changes(status: Option<Status>, content: Content)

  function Or<T>(change: Option<T>, kept: Option<T>): Option<T>
  {
    if change.Some? then change else kept
  }

  function Merge(kept: Content, changes: Content): Content
  {
    Content(Or(changes.text, kept.text), Or(changes.horizonMonths, kept.horizonMonths), Or(changes.asOf, kept.asOf),
            Or(changes.exitPrice, kept.exitPrice), Or(changes.outcomeNotes, kept.outcomeNotes))
  }

  predicate IsSuperseded(rows: seq<Thesis>, id: nat)
  {
    exists i | 0 <= i < |rows| :: rows[i].supersedes == Some(id)
  }

  predicate IsOpen(status: Status)
  {
    status == Active || status == Watching
  }

  /** The rows `get_active` looks for: open and without a successor. */
  function CurrentFor(rows: seq<Thesis>, user: string, symbol: string): Thesis -> bool
  {
    (t: Thesis) => t.user == user && t.symbol == Upper(symbol) && IsOpen(t.status) && !IsSuperseded(rows, t.id)
  }

  function NewestVersion(): Thesis -> real { (t: Thesis) => -(t.version as real) }

  function GetActive(rows: seq<Thesis>, user: string, symbol: string): (t: Option<Thesis>)
  {
    var ordered := SortBy(Filter(rows, CurrentFor(rows, user, symbol)), NewestVersion());
    if ordered == [] then None else Some(ordered[0])
  }

  function Created(rows: seq<Thesis>, user: string, symbol: string, status: Status, content: Content): Thesis
  {
    Thesis(|rows|, user, Upper(symbol), status, content, 1, None)
  }

  function Successor(rows: seq<Thesis>, t: Thesis, changes: Changes): Thesis
  {
    Thesis(|rows|, t.user, t.symbol, if changes.status.Some? then changes.status.value else t.status,
           Merge(t.content, changes.content), t.version + 1, Some(t.id))
  }

  // -------------------------------------------------------------- invariants

  /** A successor continues an earlier row of the same user and symbol with the next version number. */
  ghost predicate Continues(rows: seq<Thesis>, i: nat)
    requires i < |rows|
  {
    rows[i].supersedes.Some? ==>
      var j := rows[i].supersedes.value;
      && j < i && rows[j].user == rows[i].user && rows[j].symbol == rows[i].symbol
      && rows[i].version == rows[j].version + 1
  }

  ghost predicate ThesisTable(rows: seq<Thesis>)
  {
    && (forall i | 0 <= i < |rows| :: rows[i].id == i && Upper(rows[i].symbol) == rows[i].symbol)
    && (forall i | 0 <= i < |rows| :: Continues(rows, i))
  }

  ghost predicate Current(rows: seq<Thesis>, i: nat)
    requires i < |rows|
  {
    IsOpen(rows[i].status) && !IsSuperseded(rows, i)
  }

  /** At most one current row per user and symbol. */
  ghost predicate OneCurrent(rows: seq<Thesis>)
  {
    forall i, j | 0 <= i < j < |rows| && Current(rows, i) && Current(rows, j) ::
      rows[i].user != rows[j].user || rows[i].symbol != rows[j].symbol
  }

  /** No row has two successors: the rows form chains, not trees. */
  ghost predicate Unbranched(rows: seq<Thesis>)
  {
    forall i, j | 0 <= i < j < |rows| && rows[i].supersedes.Some? :: rows[i].supersedes != rows[j].supersedes
  }

  class ThesisRepository {
    var rows: seq<Thesis>

    constructor ()
      ensures rows == [] && ThesisTable(rows)
    {
      rows := [];
    }

    method Create(user: string, symbol: string, status: Status, content: Content) returns (t: Thesis)
      requires ThesisTable(rows)
      modifies this
      ensures ThesisTable(rows)
      ensures t == Created(old(rows), user, symbol, status, content) && rows == old(rows) + [t]
    {
      t := Thesis(|rows|, user, Upper(symbol), status, content, 1, None);
      UpperTwice(symbol);
      AppendKeepsTable(rows, t);
      rows := rows + [t];
    }

    /** Append a successor; existing rows are never changed. */
    method Update(t: Thesis, changes: Changes) returns (successor: Thesis)
      requires ThesisTable(rows) && t in rows
      modifies this
      ensures ThesisTable(rows)
      ensures successor == Successor(old(rows), t, changes) && rows == old(rows) + [successor]
    {
      var status := t.status;
      if changes.status.Some? {
        status := changes.status.value;
      }
      successor := Thesis(|rows|, t.user, t.symbol, status, Merge(t.content, changes.content), t.version + 1,
        Some(t.id));
      AppendKeepsTable(rows, successor);
      rows := rows + [successor];
    }

    /** The service: refresh the current thesis if there is one, else start one. */
    method Record(user: string, symbol: string, status: Status, content: Content) returns (t: Thesis)
      requires ThesisTable(rows) && OneCurrent(rows) && Unbranched(rows)
      modifies this
      ensures ThesisTable(rows) && OneCurrent(rows) && Unbranched(rows)
      ensures rows == Apply(old(rows), Refresh(user, symbol, status, content))
      ensures rows == old(rows) + [t] && t.user == user && t.symbol == Upper(symbol) && t.status == status
      ensures content.text.Some? ==> t.content.text == content.text
      ensures content.horizonMonths.Some? ==> t.content.horizonMonths == content.horizonMonths
      ensures content.asOf.Some? ==> t.content.asOf == content.asOf
      ensures t.supersedes == if GetActive(old(rows), user, symbol).Some?
                              then Some(GetActive(old(rows), user, symbol).value.id) else None
    {
      ApplyKeeps(rows, Refresh(user, symbol, status, content));
      ActiveIsCurrent(rows, user, symbol);
      var current := GetActive(rows, user, symbol);
      if current.Some? {
        t := Update(current.value, Changes(Some(status), content));
      } else {
        t := Create(user, symbol, status, content);
      }
    }
  }

  lemma AppendKeepsTable(rows: seq<Thesis>, t: Thesis)
    requires ThesisTable(rows) && t.id == |rows| && Upper(t.symbol) == t.symbol
    requires t.supersedes.Some? ==>
               var j := t.supersedes.value;
               j < |rows| && rows[j].user == t.user && rows[j].symbol == t.symbol && t.version == rows[j].version + 1
    ensures ThesisTable(rows + [t])
  {
    forall i | 0 <= i < |rows + [t]| ensures Continues(rows + [t], i) {
      assert i < |rows| ==> Continues(rows, i);
    }
  }

  // ------------------------------------------------------------ whole runs

  /** The service refreshes, the API patches; both act on what `get_active` returns. */
  datatype Step =
    | Refresh(user: string, symbol: string, status: Status, content: Content)
    | Patch(user: string, symbol: string, changes: Changes)

  function Apply(rows: seq<Thesis>, step: Step): seq<Thesis>
  {
    var current := GetActive(rows, step.user, step.symbol);
    match step
    case Refresh(user, symbol, status, content) =>
      if current.Some? then rows + [Successor(rows, current.value, Changes(Some(status), content))]
      else rows + [Created(rows, user, symbol, status, content)]
    case Patch(_, _, changes) =>
      if current.Some? then rows + [Successor(rows, current.value, changes)] else rows
  }

  function Run(steps: seq<Step>): seq<Thesis>
  {
    if steps == [] then [] else Apply(Run(steps[..|steps| - 1]), steps[|steps| - 1])
  }

  /** `get_active` answers with a current row of that user and symbol, and finds one if there is one. */
  lemma ActiveIsCurrent(rows: seq<Thesis>, user: string, symbol: string)
    requires ThesisTable(rows)
    ensures var t := GetActive(rows, user, symbol);
            && (t.Some? ==> t.value in rows && t.value.id < |rows| && rows[t.value.id] == t.value
                            && Current(rows, t.value.id) && t.value.user == user && t.value.symbol == Upper(symbol))
            && (t.None? ==> forall i | 0 <= i < |rows| && Current(rows, i) ::
                              rows[i].user != user || rows[i].symbol != Upper(symbol))
  {
    var p := CurrentFor(rows, user, symbol);
    var found := Filter(rows, p);
    FilterMembers(rows, p);
    SortMembers(found, NewestVersion());
    var ordered := SortBy(found, NewestVersion());
    if ordered != [] {
      assert ordered[0] in ordered;
      assert ordered[0] in found;
    } else {
      forall i | 0 <= i < |rows| && Current(rows, i) ensures rows[i].user != user || rows[i].symbol != Upper(symbol) {
        assert rows[i] in rows;
        assert p(rows[i]) <==> rows[i].user == user && rows[i].symbol == Upper(symbol);
        assert found == [];
      }
    }
  }

  lemma SupersededAfter(rows: seq<Thesis>, t: Thesis, i: nat)
    ensures IsSuperseded(rows + [t], i) <==> IsSuperseded(rows, i) || t.supersedes == Some(i)
  {
    var after := rows + [t];
    if IsSuperseded(rows, i) {
      var j :| 0 <= j < |rows| && rows[j].supersedes == Some(i);
      assert after[j].supersedes == Some(i);
    }
    if t.supersedes == Some(i) {
      assert after[|rows|].supersedes == Some(i);
    }
  }

  /** Succeeding a current row hands its place to the successor, or vacates it. */
  lemma SuccessorKeeps(rows: seq<Thesis>, t: Thesis, changes: Changes)
    requires ThesisTable(rows) && OneCurrent(rows) && Unbranched(rows)
    requires t.id < |rows| && rows[t.id] == t && Current(rows, t.id)
    ensures var after := rows + [Successor(rows, t, changes)];
            ThesisTable(after) && OneCurrent(after) && Unbranched(after)
  {
    var s := Successor(rows, t, changes);
    var after := rows + [s];
    AppendKeepsTable(rows, s);
    forall i | 0 <= i < |rows| ensures Current(after, i) <==> Current(rows, i) && i != t.id {
      SupersededAfter(rows, s, i);
    }
    assert !IsSuperseded(rows, t.id);
    forall i, j | 0 <= i < j < |after| && after[i].supersedes.Some? ensures after[i].supersedes != after[j].supersedes {
      assert i < |rows| && after[i] == rows[i];
    }
  }

  /** Starting a thesis keeps it unique exactly when none is current, or the new one is not open. */
  lemma CreateKeepsIff(rows: seq<Thesis>, user: string, symbol: string, status: Status, content: Content)
    requires ThesisTable(rows) && OneCurrent(rows) && Unbranched(rows)
    ensures var after := rows + [Created(rows, user, symbol, status, content)];
            && ThesisTable(after) && Unbranched(after)
            && (OneCurrent(after) <==> GetActive(rows, user, symbol).None? || !IsOpen(status))
  {
    var t := Created(rows, user, symbol, status, content);
    var after := rows + [t];
    UpperTwice(symbol);
    AppendKeepsTable(rows, t);
    ActiveIsCurrent(rows, user, symbol);
    forall i | 0 <= i < |rows| ensures Current(after, i) <==> Current(rows, i) {
      SupersededAfter(rows, t, i);
    }
    SupersededAfter(rows, t, |rows|);
    NotYetSuperseded(rows);
    assert Current(after, |rows|) <==> IsOpen(status);
    var active := GetActive(rows, user, symbol);
    if active.Some? && IsOpen(status) {
      assert Current(after, active.value.id) && Current(after, |rows|);
      assert after[active.value.id].user == after[|rows|].user;
    }
  }

  /** Two creates for one user and symbol leave two current theses. */
  lemma CreatedTwiceWitness() returns (once: seq<Thesis>, twice: seq<Thesis>)
    ensures once == [Created([], "default", "BEL", Active, Content(None, None, None, None, None))]
    ensures twice == once + [Created(once, "default", "BEL", Active, Content(None, None, None, None, None))]
    ensures ThesisTable(twice) && OneCurrent(once) && !OneCurrent(twice)
  {
    var nothing := Content(None, None, None, None, None);
    once := [Created([], "default", "BEL", Active, nothing)];
    twice := once + [Created(once, "default", "BEL", Active, nothing)];
    UpperTwice("BEL");
    assert Current(twice, 0) && Current(twice, 1);
    assert twice[0].user == twice[1].user && twice[0].symbol == twice[1].symbol;
  }

  lemma NotYetSuperseded(rows: seq<Thesis>)
    requires ThesisTable(rows)
    ensures !IsSuperseded(rows, |rows|)
  {
    forall i | 0 <= i < |rows| ensures rows[i].supersedes != Some(|rows|) {
      assert Continues(rows, i);
    }
  }

  lemma ApplyKeeps(rows: seq<Thesis>, step: Step)
    requires ThesisTable(rows) && OneCurrent(rows) && Unbranched(rows)
    ensures ThesisTable(Apply(rows, step)) && OneCurrent(Apply(rows, step)) && Unbranched(Apply(rows, step))
  {
    ActiveIsCurrent(rows, step.user, step.symbol);
    var current := GetActive(rows, step.user, step.symbol);
    match step
    case Refresh(user, symbol, status, content) =>
      if current.Some? {
        SuccessorKeeps(rows, current.value, Changes(Some(status), content));
      } else {
        CreateKeepsIff(rows, user, symbol, status, content);
      }
    case Patch(_, _, changes) =>
      if current.Some? {
        SuccessorKeeps(rows, current.value, changes);
      }
  }

  /**
   * In every state the service and the patch endpoint can reach, each user and symbol has at most one
   * current thesis, no row has two successors, and every successor continues an earlier row with the
   * next version number.
   */
  lemma {:induction false} RunsKeepOneCurrent(steps: seq<Step>)
    ensures ThesisTable(Run(steps)) && OneCurrent(Run(steps)) && Unbranched(Run(steps))
  {
    if steps != [] {
      RunsKeepOneCurrent(steps[..|steps| - 1]);
      ApplyKeeps(Run(steps[..|steps| - 1]), steps[|steps| - 1]);
    }
  }

  // ---------------------------------------------- what the operations write

  /**
   * A successor is the same user's and symbol's next version, with every field that was given and the
   * predecessor's others.
   */
  lemma SuccessorMeans(rows: seq<Thesis>, t: Thesis, ch: Changes)
    ensures var s := Successor(rows, t, ch);
            && s.id == |rows| && s.user == t.user && s.symbol == t.symbol
            && s.version == t.version + 1 && s.supersedes == Some(t.id)
            && (ch.status.Some? ==> s.status == ch.status.value) && (ch.status.None? ==> s.status == t.status)
            && (ch.content.text.Some? ==> s.content.text == ch.content.text)
            && (ch.content.text.None? ==> s.content.text == t.content.text)
            && (ch.content.horizonMonths.Some? ==> s.content.horizonMonths == ch.content.horizonMonths)
            && (ch.content.horizonMonths.None? ==> s.content.horizonMonths == t.content.horizonMonths)
            && (ch.content.asOf.Some? ==> s.content.asOf == ch.content.asOf)
            && (ch.content.asOf.None? ==> s.content.asOf == t.content.asOf)
            && (ch.content.exitPrice.Some? ==> s.content.exitPrice == ch.content.exitPrice)
            && (ch.content.exitPrice.None? ==> s.content.exitPrice == t.content.exitPrice)
            && (ch.content.outcomeNotes.Some? ==> s.content.outcomeNotes == ch.content.outcomeNotes)
            && (ch.content.outcomeNotes.None? ==> s.content.outcomeNotes == t.content.outcomeNotes)
  {
  }

  /** A created thesis starts a chain of its own. */
  lemma CreatedMeans(rows: seq<Thesis>, user: string, symbol: string, status: Status, content: Content)
    ensures var t := Created(rows, user, symbol, status, content);
            && t.id == |rows| && t.user == user && t.symbol == Upper(symbol) && t.status == status
               && t.content == content
            && t.version == 1 && t.supersedes == None
  {
  }

  /** An active or watched thesis of the user and symbol that no row supersedes. */
  ghost predicate Eligible(rows: seq<Thesis>, t: Thesis, user: string, symbol: string)
  {
    && t.user == user && t.symbol == Upper(symbol) && (t.status == Active || t.status == Watching)
    && forall s | s in rows :: s.supersedes != Some(t.id)
  }

  lemma EligibleIff(rows: seq<Thesis>, t: Thesis, user: string, symbol: string)
    ensures CurrentFor(rows, user, symbol)(t) <==> Eligible(rows, t, user, symbol)
  {
    if s :| s in rows && s.supersedes == Some(t.id) {
      var i :| 0 <= i < |rows| && rows[i] == s;
    }
    if IsSuperseded(rows, t.id) {
      var i :| 0 <= i < |rows| && rows[i].supersedes == Some(t.id);
      assert rows[i] in rows;
    }
  }

  lemma FirstIsNewest(kept: seq<Thesis>, t: Thesis)
    requires t in kept
    ensures var ordered := SortBy(kept, NewestVersion());
            ordered != [] && ordered[0] in kept && t.version <= ordered[0].version
  {
    var ordered := SortBy(kept, NewestVersion());
    SortMembers(kept, NewestVersion());
    SortSorts(kept, NewestVersion());
    assert ordered[0] in ordered && t in ordered;
    var i :| 0 <= i < |ordered| && ordered[i] == t;
    assert 0 < i ==> NewestVersion()(ordered[0]) <= NewestVersion()(ordered[i]);
  }

  /** The thesis `get_active` picks is one of the highest version of the eligible ones, if there are any. */
  lemma ActiveMeans(rows: seq<Thesis>, user: string, symbol: string, t: Thesis)
    ensures var found := GetActive(rows, user, symbol);
            && (found.Some? ==> found.value in rows && Eligible(rows, found.value, user, symbol))
            && (t in rows && Eligible(rows, t, user, symbol) ==> found.Some? && t.version <= found.value.version)
  {
    var kept := Filter(rows, CurrentFor(rows, user, symbol));
    var found := GetActive(rows, user, symbol);
    FilterMembers(rows, CurrentFor(rows, user, symbol));
    EligibleIff(rows, t, user, symbol);
    if found.Some? {
      SortMembers(kept, NewestVersion());
      assert SortBy(kept, NewestVersion())[0] in SortBy(kept, NewestVersion());
      EligibleIff(rows, found.value, user, symbol);
    }
    if t in kept {
      FirstIsNewest(kept, t);
    }
  }
}
