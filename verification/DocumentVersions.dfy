/** `db/repositories/source_document.py`: idempotent ingestion and the amendment chain. */
module DocumentVersions {
  import opened Basics

  datatype SourceDocument = SourceDocument(id: nat, company: int, url: string, hash: string)

  datatype VersionStatus = Original | Amended

  datatype DocumentVersion = DocumentVersion(
    id: nat, document: nat, number: int, status: VersionStatus, supersededBy: Option<nat>)

  function HasContent(company: int, url: string, hash: string): SourceDocument -> bool
  {
    (d: SourceDocument) => d.company == company && d.url == url && d.hash == hash
  }

  /** `order_by(version_number.desc()).limit(1)` among the versions of a document. */
  function TopVersion(versions: seq<DocumentVersion>, document: nat): (top: Option<DocumentVersion>)
    ensures top.Some? ==> top.value in versions && top.value.document == document
    ensures forall i | 0 <= i < |versions| && versions[i].document == document ::
              top.Some? && versions[i].number <= top.value.number
  {
    if versions == [] then None else
      var rest := TopVersion(versions[..|versions| - 1], document);
      var v := versions[|versions| - 1];
      if v.document == document && (rest.None? || v.number > rest.value.number) then Some(v) else rest
  }

  ghost predicate DocumentTable(documents: seq<SourceDocument>)
  {
    && (forall i | 0 <= i < |documents| :: documents[i].id == i)
    && (forall i, j | 0 <= i < j < |documents| ::
          !HasContent(documents[i].company, documents[i].url, documents[i].hash)(documents[j]))
  }

  /** A version points forward, to the version numbered one higher. */
  ghost predicate PointsForward(versions: seq<DocumentVersion>, i: nat)
    requires i < |versions|
  {
    versions[i].supersededBy.Some? ==>
      var n := versions[i].supersededBy.value;
      i < n < |versions| && versions[n].number == versions[i].number + 1
  }

  ghost predicate VersionTable(versions: seq<DocumentVersion>)
  {
    && (forall i | 0 <= i < |versions| :: versions[i].id == i && versions[i].number >= 1)
    && (forall i | 0 <= i < |versions| :: PointsForward(versions, i))
    && (forall i, j | 0 <= i < j < |versions| ::
          versions[i].document != versions[j].document || versions[i].number != versions[j].number)
    && (forall i, j | 0 <= i < j < |versions| :: versions[i].supersededBy.Some? ==>
          versions[i].supersededBy != versions[j].supersededBy)
  }

  predicate NumberTaken(versions: seq<DocumentVersion>, document: nat, number: int)
  {
    exists i | 0 <= i < |versions| :: versions[i].document == document && versions[i].number == number
  }

  function NextNumber(versions: seq<DocumentVersion>, prior: nat): int
  {
    var top := TopVersion(versions, prior);
    (if top.Some? then top.value.number else 1) + 1
  }

  /** The versions after an accepted amendment of `prior` by `amending`. */
  function Amend(versions: seq<DocumentVersion>, prior: nat, amending: nat): seq<DocumentVersion>
    requires forall i | 0 <= i < |versions| :: versions[i].id == i
  {
    var top := TopVersion(versions, prior);
    var added := versions + [DocumentVersion(|versions|, amending, NextNumber(versions, prior), Amended, None)];
    if top.None? then added else added[top.value.id := top.value.(supersededBy := Some(|versions|))]
  }

  class SourceDocumentRepository {
    var documents: seq<SourceDocument>
    var versions: seq<DocumentVersion>

    ghost predicate Valid()
      reads this
    {
      && DocumentTable(documents)
      && VersionTable(versions)
      && (forall v | v in versions :: v.document < |documents|)
      && (forall d | 0 <= d < |documents| :: NumberTaken(versions, d, 1))
    }

    constructor ()
      ensures Valid() && documents == [] && versions == []
    {
      documents, versions := [], [];
    }

    /** Idempotent on (company, url, content hash); a new document starts its own chain at version 1. */
    method GetOrCreate(company: int, url: string, hash: string) returns (result: Result<(SourceDocument, bool), string>)
      requires Valid()
      modifies this
      ensures Valid()
      ensures result.Ok?
      ensures var (doc, created) := result.value;
              && doc in documents && doc.company == company && doc.url == url && doc.hash == hash
              && (created <==> forall d | d in old(documents) ::
                 !(d.company == company && d.url == url && d.hash == hash))
              && (!created ==> documents == old(documents) && versions == old(versions))
              && (created ==> documents == old(documents) + [doc]
                              && versions
                                 == old(versions) + [DocumentVersion(|old(versions)|, doc.id, 1, Original, None)])
    {
      HashLookup(documents, company, url, hash);
      FilterMembers(documents, HasContent(company, url, hash));
      var matches := Filter(documents, HasContent(company, url, hash));
      var existing := OneOrNone(matches).value;
      if existing.Some? {
        assert matches[0] in matches;
        return Ok((existing.value, false));
      }
      var doc := SourceDocument(|documents|, company, url, hash);
      NewDocumentKeepsTable(documents, doc);
      NewChainKeepsTable(versions, doc.id);
      NewChainKeepsFirsts(versions, |documents|);
      documents := documents + [doc];
      versions := versions + [DocumentVersion(|versions|, doc.id, 1, Original, None)];
      result := Ok((doc, true));
    }

    /** Link `amending` as the amendment of `prior`; the unique constraint refuses a number already taken. */
    method RecordAmendment(prior: nat, amending: nat) returns (result: Result<DocumentVersion, string>)
      requires Valid() && prior < |documents| && amending < |documents|
      modifies this`versions
      ensures Valid()
      ensures result.Err? <==> NumberTaken(old(versions), amending, NextNumber(old(versions), prior))
      ensures result.Err? ==> versions == old(versions)
      ensures result.Ok? ==>
                versions == Amend(old(versions), prior, amending) && result.value == versions[|old(versions)|]
      ensures result.Ok? ==> result.value.document == amending && result.value.number >= 2
    {
      var priorVersion := TopVersion(versions, prior);
      var number := (if priorVersion.Some? then priorVersion.value.number else 1) + 1;
      if NumberTaken(versions, amending, number) {
        return Err("IntegrityError");
      }
      ghost var before := versions;
      AmendKeepsTable(versions, prior, amending);
      var version := DocumentVersion(|versions|, amending, number, Amended, None);
      versions := versions + [version];
      if priorVersion.Some? {
        versions := versions[priorVersion.value.id := priorVersion.value.(supersededBy := Some(version.id))];
      }
      AmendKeepsFirsts(before, prior, amending, |documents|);
      result := Ok(version);
    }
  }

  lemma HashLookup(documents: seq<SourceDocument>, company: int, url: string, hash: string)
    requires DocumentTable(documents)
    ensures |Filter(documents, HasContent(company, url, hash))| <= 1
  {
    var p := HasContent(company, url, hash);
    forall i, j | 0 <= i < j < |documents| ensures !(p(documents[i]) && p(documents[j])) {
      assert p(documents[i]) ==> HasContent(documents[i].company, documents[i].url, documents[i].hash) == p;
    }
    AtMostOne(documents, p);
  }

  lemma NewDocumentKeepsTable(documents: seq<SourceDocument>, doc: SourceDocument)
    requires DocumentTable(documents) && doc.id == |documents|
    requires forall d | d in documents :: !HasContent(doc.company, doc.url, doc.hash)(d)
    ensures DocumentTable(documents + [doc])
  {
    forall i | 0 <= i < |documents|
      ensures !HasContent(documents[i].company, documents[i].url, documents[i].hash)(doc) {
      assert documents[i] in documents;
    }
  }

  lemma NewChainKeepsFirsts(versions: seq<DocumentVersion>, documents: nat)
    requires forall d | 0 <= d < documents :: NumberTaken(versions, d, 1)
    ensures var after := versions + [DocumentVersion(|versions|, documents, 1, Original, None)];
            forall d | 0 <= d <= documents :: NumberTaken(after, d, 1)
  {
    var after := versions + [DocumentVersion(|versions|, documents, 1, Original, None)];
    assert after[|versions|].document == documents;
    forall d | 0 <= d < documents ensures NumberTaken(after, d, 1) {
      assert NumberTaken(versions, d, 1);
      var i :| 0 <= i < |versions| && versions[i].document == d && versions[i].number == 1;
      assert after[i] == versions[i];
    }
  }

  lemma NewChainKeepsTable(versions: seq<DocumentVersion>, document: nat)
    requires VersionTable(versions) && forall v | v in versions :: v.document < document
    ensures VersionTable(versions + [DocumentVersion(|versions|, document, 1, Original, None)])
  {
    var after := versions + [DocumentVersion(|versions|, document, 1, Original, None)];
    forall i | 0 <= i < |after| ensures PointsForward(after, i) {
      assert i < |versions| ==> PointsForward(versions, i);
    }
    assert forall i | 0 <= i < |versions| :: versions[i] in versions;
  }

  lemma AmendKeepsTable(versions: seq<DocumentVersion>, prior: nat, amending: nat)
    requires VersionTable(versions) && !NumberTaken(versions, amending, NextNumber(versions, prior))
    ensures VersionTable(Amend(versions, prior, amending))
  {
    AmendPointsForward(versions, prior, amending);
    AmendKeepsNumbers(versions, prior, amending);
    AmendKeepsTargets(versions, prior, amending);
  }

  /**
   * An accepted amendment adds a version of the amending document, numbered one above the highest of
   * the amended one, and lets that point to it; every other version stays as it is.
   */
  lemma AmendMeans(versions: seq<DocumentVersion>, prior: nat, amending: nat)
    requires VersionTable(versions)
    ensures var after := Amend(versions, prior, amending);
            && |after| == |versions| + 1
            && after[|versions|].id == |versions| && after[|versions|].document == amending
            && after[|versions|].status == Amended && after[|versions|].supersededBy == None
            && (forall i | 0 <= i < |versions| && versions[i].document == prior ::
               versions[i].number < after[|versions|].number)
            && ((forall i | 0 <= i < |versions| :: versions[i].document != prior) ==> after[|versions|].number == 2)
            && forall i | 0 <= i < |versions| ::
                 after[i] == if versions[i].document == prior && versions[i].number == after[|versions|].number - 1
                             then versions[i].(supersededBy := Some(|versions|)) else versions[i]
  {
    var top := TopVersion(versions, prior);
    if top.Some? {
      var t := top.value.id;
      assert versions[t] == top.value;
      assert forall i | 0 <= i < |versions| && versions[i].document == prior
             && versions[i].number == top.value.number :: i == t;
    }
  }

  lemma AmendPointsForward(versions: seq<DocumentVersion>, prior: nat, amending: nat)
    requires VersionTable(versions)
    ensures forall i | 0 <= i < |Amend(versions, prior, amending)| :: PointsForward(Amend(versions, prior, amending), i)
  {
    var after := Amend(versions, prior, amending);
    forall i | 0 <= i < |after| ensures PointsForward(after, i) {
      assert i < |versions| ==> PointsForward(versions, i);
    }
  }

  lemma AmendKeepsNumbers(versions: seq<DocumentVersion>, prior: nat, amending: nat)
    requires VersionTable(versions) && !NumberTaken(versions, amending, NextNumber(versions, prior))
    ensures var after := Amend(versions, prior, amending);
            forall i, j | 0 <= i < j < |after| ::
                   after[i].document != after[j].document || after[i].number != after[j].number
  {
    var after := Amend(versions, prior, amending);
    forall i, j | 0 <= i < j < |after|
      ensures after[i].document != after[j].document || after[i].number != after[j].number
    {
      assert after[i].document == versions[i].document && after[i].number == versions[i].number;
    }
  }

  lemma AmendKeepsTargets(versions: seq<DocumentVersion>, prior: nat, amending: nat)
    requires VersionTable(versions)
    ensures var after := Amend(versions, prior, amending);
            forall i, j | 0 <= i < j < |after| && after[i].supersededBy.Some? ::
                   after[i].supersededBy != after[j].supersededBy
  {
    var after := Amend(versions, prior, amending);
    forall i, j | 0 <= i < j < |after| && after[i].supersededBy.Some?
      ensures after[i].supersededBy != after[j].supersededBy
    {
      assert PointsForward(versions, i);
      assert j < |versions| ==> PointsForward(versions, j);
    }
  }

  lemma AmendKeepsFirsts(versions: seq<DocumentVersion>, prior: nat, amending: nat, documents: nat)
    requires VersionTable(versions)
    requires forall d | 0 <= d < documents :: NumberTaken(versions, d, 1)
    ensures forall d | 0 <= d < documents :: NumberTaken(Amend(versions, prior, amending), d, 1)
  {
    var after := Amend(versions, prior, amending);
    forall d | 0 <= d < documents ensures NumberTaken(after, d, 1) {
      assert NumberTaken(versions, d, 1);
      var i :| 0 <= i < |versions| && versions[i].document == d && versions[i].number == 1;
      assert after[i].document == d && after[i].number == 1;
    }
  }
}
