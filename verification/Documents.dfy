/** The entities that travel between the API, the row table, the queue and the search index. */
module Documents {

  datatype Option<+T> = None | Some(value: T)

  type Tenant = string

  /** A document's primary key; its canonical text is fixed-width lower-case hexadecimal,
      so the text order of two ids is the order of the numbers. */
  type Uuid = nat

  /** The searchable part of a document. It is written once, by `create`, and never changed. */
  datatype Source = Source(title: string, content: string)

  datatype Status = Pending | Indexed | Failed | Deleted

  /** One row of the `documents` table. */
  datatype Row = Row(tenant: Tenant, version: int, status: Status, source: Source, updatedAt: int)

  type Rows = map<Uuid, Row>

  /** The id text carried by an event, classified by what the UUID parser makes of it: the
      canonical spelling of an id, another spelling it accepts, or text it rejects. */
  datatype DocumentId =
    | Canonical(uuid: Uuid)
    | Alias(uuid: Uuid, text: string)
    | Malformed(text: string)

  datatype EventKind = IndexEvent | DeleteEvent

  datatype Event = Event(documentId: DocumentId, tenant: Tenant, version: int, kind: EventKind)

  /** One operation of a bulk request. */
  datatype Operation =
    | IndexOp(id: Uuid, tenant: Tenant, version: int, source: Source)
    | DeleteOp(id: Uuid, tenant: Tenant, version: int)

  /** What the search index holds for one document. */
  datatype StoredDoc = StoredDoc(tenant: Tenant, version: int, source: Source)

  type Index = map<Uuid, StoredDoc>

  /** A search request as it reaches the service. */
  datatype Request = Request(text: string, page: int, size: int, fuzzy: bool, highlight: bool, facets: bool)

  function Min(a: int, b: int): int { if a < b then a else b }

  predicate NoDuplicates<T(==)>(s: seq<T>) {
    forall i, j :: 0 <= i < j < |s| ==> s[i] != s[j]
  }

  function Elements<T(==)>(s: seq<T>): set<T> {
    set x | x in s
  }

  lemma {:induction false} CardinalityOfDistinct<T>(s: seq<T>)
    requires NoDuplicates(s)
    ensures |Elements(s)| == |s|
  {
    if s == [] {
      assert Elements(s) == {};
    } else {
      var init, last := s[..|s| - 1], s[|s| - 1];
      CardinalityOfDistinct(init);
      assert Elements(s) == Elements(init) + {last};
    }
  }
}
