/**
 * The entities of the memory layer.
 *
 * An entry id is modelled by its rank in collation order, which for identifiers of one fixed
 * shape is a total order; a moment is a number of milliseconds; the SHA-256 digest is the free
 * constructor Sha256, so equal digests mean equal contents.
 */
module Memory {
  type EntryId = nat
  type ProjectId = nat
  type Time = int

  datatype Option<+T> = None | Some(value: T)

  datatype Kind = Fact | Preference | ExperienceRecord | DistilledPattern | TaskState
  datatype Scope = Global | Project
  datatype Sentiment = StrongPositive | WeakPositive | Neutral | WeakNegative | StrongNegative
  datatype Status = Active | Superseded | SoftDeleted | HardDeleted
  datatype Mutability = EvidenceImmutable | DomainVersioned | OperationalMetadata | DeletionTombstone
  datatype Placement = ProjectPlacement | GlobalProbation | GlobalStable

  // A mutation id is either drawn from the id factory or chosen by a caller.
  datatype MutationId = Issued(n: nat) | Supplied(name: nat)

  datatype Hash = Sha256(preimage: string)

  datatype Entry = Entry(
    id: EntryId,
    kind: Kind,
    content: string,
    scope: Scope,
    project: Option<ProjectId>,
    confidence: real,
    sentiment: Sentiment,
    traceId: nat,
    tags: set<string>,
    createdAt: Time,
    updatedAt: Time,
    mutability: Mutability,
    status: Status,
    supersededBy: Option<EntryId>,
    deletedAt: Option<Time>,
    tombstone: Option<EntryId>,
    placement: Placement,
    lastMutation: Option<MutationId>,
    sources: seq<EntryId>  // basedOn and supersedes of a distilled pattern; both always hold the same ids
  )

  // The entry collection of the document store, keyed by id.
  type Entries = map<EntryId, Entry>

  ghost predicate Keyed(m: Entries) {
    forall id :: id in m ==> m[id].id == id
  }

  // What the store's write-side schema demands: a distilled pattern names its sources.
  predicate Storable(e: Entry) {
    e.kind == DistilledPattern ==> e.sources != []
  }

  // Same entry, possibly touched at another moment.
  ghost predicate SameButTouched(a: Entry, b: Entry) {
    a.(updatedAt := b.updatedAt) == b
  }

  // Same ids, same entries, except that the entries in touched may carry a new updatedAt.
  ghost predicate SameExceptTouched(a: Entries, b: Entries, touched: set<EntryId>) {
    && a.Keys == b.Keys
    && (forall id :: id in a && id in touched ==> SameButTouched(a[id], b[id]))
    && (forall id :: id in a && id !in touched ==> a[id] == b[id])
  }

  function Ids(records: seq<Entry>): seq<EntryId> {
    if records == [] then [] else [records[0].id] + Ids(records[1..])
  }

  lemma {:induction false} IdsContents(records: seq<Entry>)
    ensures |Ids(records)| == |records|
    ensures forall id :: id in Ids(records) <==> exists r :: r in records && r.id == id
  {
    if records != [] {
      IdsContents(records[1..]);
      assert records == [records[0]] + records[1..];
    }
  }

  ghost predicate DistinctIds(records: seq<Entry>) {
    forall i, j :: 0 <= i < j < |records| ==> records[i].id != records[j].id
  }

  lemma {:induction false} OccursOnce(xs: seq<Entry>, x: Entry)
    requires DistinctIds(xs)
    ensures multiset(xs)[x] <= 1
  {
    if xs != [] {
      assert xs == [xs[0]] + xs[1..];
      OccursOnce(xs[1..], x);
      if x == xs[0] {
        assert x !in xs[1..];
        assert x !in multiset(xs[1..]);
      }
    }
  }

  // Two duplicate-free lists with the same members are permutations of each other.
  lemma {:induction false} SameMembers(xs: seq<Entry>, ys: seq<Entry>)
    requires DistinctIds(xs) && DistinctIds(ys) && forall r :: r in xs <==> r in ys
    ensures multiset(xs) == multiset(ys)
  {
    forall r ensures multiset(xs)[r] == multiset(ys)[r] {
      OccursOnce(xs, r);
      OccursOnce(ys, r);
      assert r in xs <==> r in multiset(xs);
      assert r in ys <==> r in multiset(ys);
    }
  }

  predicate IdBefore(a: Entry, b: Entry) { a.id <= b.id }
}
