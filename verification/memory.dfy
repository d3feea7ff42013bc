/** The memory layer: facts extracted by a language model, embedded, and kept
    in an append-only vector collection that supports a full scan and a
    nearest-neighbour query. The language model, the embedder and the
    collection's ranking are oracles passed in as functions; each may raise. */
module Memory {
  import opened Base
  import Text

  datatype Scalar = SStr(s: string) | SInt(i: int) | SFloat(f: real) | SBool(b: bool)

  type Metadata = map<string, Scalar>

  type Vector = seq<real>

  /** One stored memory: id, document (the fact), metadata and embedding. */
  datatype Record = Record(id: string, document: string, metadata: Metadata, embedding: Vector)

  /** The collection, in insertion order. */
  type Store = seq<Record>

  /** An entry of `get_all`. */
  datatype Memo = Memo(fact: string, metadata: Metadata)

  /** An entry of `search`; `score` is the collection's distance. */
  datatype Hit = Hit(fact: string, metadata: Metadata, score: real)

  /** The outcome of a successful `add`: the new collection and the fact. */
  datatype Added = Added(store: Store, fact: string)

  /** What the collection's `query` returns for one query embedding: one row
      per query embedding of documents, metadatas and distances. Each list
      may be missing (`None`). */
  datatype QueryAnswer = QueryAnswer(
    documents: Option<seq<seq<string>>>,
    metadatas: Option<seq<seq<Metadata>>>,
    distances: Option<seq<seq<real>>>)

  /** A list that may be `None`, where the code only tests its truthiness:
      `None` and `[]` are both false. */
  function Rows<T>(o: Option<seq<T>>): seq<T> {
    if o.Some? then o.value else []
  }

  /** The collection's nearest-neighbour query over the current records, a
      query embedding and `n_results`. */
  type Chroma = (Store, Vector, int) -> Call<QueryAnswer>

  /** The completion service, from user text to the reply's content. */
  type Completer = string -> Call<string>

  type Embedder = string -> Call<Vector>

  const Placeholder := "2024-01-01T12:00:00"

  const DefaultLimit := 3

  const IndexError := "list index out of range"

  /** The `TypeError` raised by indexing `None`. */
  const NoneSubscriptError := "'NoneType' object is not subscriptable"

  function Ids(store: Store): set<string> {
    set k | 0 <= k < |store| :: store[k].id
  }

  function Documents(store: Store): set<string> {
    set k | 0 <= k < |store| :: store[k].document
  }

  predicate IdsDistinct(store: Store) {
    forall i, j :: 0 <= i < j < |store| ==> store[i].id != store[j].id
  }

  /** `_extract_facts`: the completion's content, stripped. */
  function ExtractFact(input: string, extractor: Completer): (r: Call<string>)
    ensures r.Returned? <==> extractor(input).Returned?
    ensures r.Returned? ==> r.value == Text.Strip(extractor(input).value)
    ensures r.Threw? ==> r.error == extractor(input).error
  {
    match extractor(input)
    case Threw(e) => Threw(e)
    case Returned(content) => Returned(Text.Strip(content))
  }

  /** The metadata `add` stores: the caller's keys (an absent argument is the
      empty map), with `original_input` and `timestamp` overwritten. */
  function StoredMetadata(caller: Metadata, input: string): (m: Metadata)
    ensures m.Keys == caller.Keys + {"original_input", "timestamp"}
    ensures m["original_input"] == SStr(input)
    ensures m["timestamp"] == SStr(Placeholder)
    ensures forall k :: k in caller && k != "original_input" && k != "timestamp" ==> m[k] == caller[k]
  {
    caller["original_input" := SStr(input)]["timestamp" := SStr(Placeholder)]
  }

  /** `MemoryLayer.add`: extract, embed the fact, then append exactly one
      record. Either fallible step raising leaves no record behind, since the
      only write comes after both. */
  function Add(store: Store, input: string, metadata: Metadata,
               extractor: Completer, embedder: Embedder, freshId: string): (r: Call<Added>)
    ensures r.Returned? <==>
      extractor(input).Returned? && embedder(Text.Strip(extractor(input).value)).Returned?
    ensures r.Returned? ==>
      && r.value.fact == Text.Strip(extractor(input).value)
      && |r.value.store| == |store| + 1
      && r.value.store[..|store|] == store
      && r.value.store[|store|].id == freshId
      && r.value.store[|store|].document == r.value.fact
      && r.value.store[|store|].metadata == StoredMetadata(metadata, input)
      && r.value.store[|store|].embedding == embedder(r.value.fact).value
    ensures r.Returned? && IdsDistinct(store) && freshId !in Ids(store) ==> IdsDistinct(r.value.store)
    ensures extractor(input).Threw? ==> r == Threw(extractor(input).error)
  {
    match ExtractFact(input, extractor)
    case Threw(e) => Threw(e)
    case Returned(fact) =>
      match embedder(fact)
      case Threw(e) => Threw(e)
      case Returned(vector) =>
        var record := Record(freshId, fact, StoredMetadata(metadata, input), vector);
        var store' := store + [record];
        assert store'[..|store|] == store;
        assert forall k :: 0 <= k < |store| ==> store'[k] == store[k];
        Returned(Added(store', fact))
  }

  /** `MemoryLayer.get_all`: one entry per stored document, document and
      metadata taken from the same record, in collection order. */
  function GetAll(store: Store): (r: seq<Memo>)
    ensures |r| == |store|
    ensures forall i :: 0 <= i < |store| ==> r[i].fact == store[i].document && r[i].metadata == store[i].metadata
  {
    if |store| == 0 then []
    else seq(|store|, i requires 0 <= i < |store| => Memo(store[i].document, store[i].metadata))
  }

  /** The distance of the `i`-th result, or 0 when the answer has no distances. */
  function DistanceAt(a: QueryAnswer, i: nat): real
    requires |Rows(a.distances)| > 0 ==> i < |Rows(a.distances)[0]|
  {
    if |Rows(a.distances)| > 0 then Rows(a.distances)[0][i] else 0.0
  }

  /** The answer's first row is long enough everywhere the loop reads it:
      metadatas are present and, when distances are truthy, they are too. */
  predicate Aligned(a: QueryAnswer)
    requires |Rows(a.documents)| > 0
  {
    var n := |a.documents.value[0]|;
    n == 0 ||
      (&& a.metadatas.Some? && |a.metadatas.value| > 0 && |a.metadatas.value[0]| >= n
       && (|Rows(a.distances)| > 0 ==> |Rows(a.distances)[0]| >= n))
  }

  /** The reshaping loop of `search`: the `i`-th hit takes the `i`-th document,
      metadata and distance of the first row. Indexing missing metadatas raises
      `TypeError`; a short metadata or distance row raises `IndexError`. */
  function Reshape(a: QueryAnswer): (r: Call<seq<Hit>>)
    ensures |Rows(a.documents)| == 0 ==> r == Returned([])
    ensures r.Threw? <==> |Rows(a.documents)| > 0 && !Aligned(a)
    ensures r.Threw? ==> (r.error == NoneSubscriptError <==> a.metadatas.None?)
    ensures r.Threw? && a.metadatas.Some? ==> r.error == IndexError
    ensures r.Returned? && |Rows(a.documents)| > 0 ==>
      && |r.value| == |a.documents.value[0]|
      && forall i :: 0 <= i < |r.value| ==>
           && r.value[i].fact == a.documents.value[0][i]
           && a.metadatas.Some? && |a.metadatas.value| > 0 && i < |a.metadatas.value[0]|
           && r.value[i].metadata == a.metadatas.value[0][i]
           && (|Rows(a.distances)| > 0 ==> i < |Rows(a.distances)[0]|)
           && r.value[i].score == DistanceAt(a, i)
  {
    if |Rows(a.documents)| == 0 then Returned([])
    else if !Aligned(a) then
      if a.metadatas.None? then Threw(NoneSubscriptError) else Threw(IndexError)
    else
      var n := |a.documents.value[0]|;
      if n == 0 then Returned([])
      else
        var metas := a.metadatas.value[0];
        Returned(seq(n, i requires 0 <= i < n => Hit(a.documents.value[0][i], metas[i], DistanceAt(a, i))))
  }

  /** `MemoryLayer.search`: an empty collection answers `[]` before anything
      is embedded; otherwise the query is embedded and the collection asked
      for `min(limit, count)` neighbours. */
  function Search(store: Store, query: string, limit: int, embedder: Embedder, chroma: Chroma): (r: Call<seq<Hit>>)
    ensures |store| == 0 ==> r == Returned([])
    ensures r.Threw? ==> |store| > 0
    ensures |store| > 0 && embedder(query).Threw? ==> r == Threw(embedder(query).error)
    ensures |store| > 0 && embedder(query).Returned? ==>
      match chroma(store, embedder(query).value, Min(limit, |store|))
      case Threw(e) => r == Threw(e)
      case Returned(a) => r == Reshape(a)
  {
    if |store| == 0 then Returned([])
    else
      match embedder(query)
      case Threw(e) => Threw(e)
      case Returned(v) =>
        match chroma(store, v, Min(limit, |store|))
        case Threw(e) => Threw(e)
        case Returned(a) => Reshape(a)
  }

  /** The collection honours `n_results = n`: at most `n` results, each a
      document and metadata of one stored record. */
  predicate Honours(a: QueryAnswer, store: Store, n: int) {
    |Rows(a.documents)| > 0 ==>
      && |a.documents.value[0]| <= n
      && forall i :: 0 <= i < |a.documents.value[0]| ==> a.documents.value[0][i] in Documents(store)
  }

  /** Every hit's fact is the document of some stored record. */
  predicate FactsStored(hits: seq<Hit>, store: Store) {
    forall i :: 0 <= i < |hits| ==> hits[i].fact in Documents(store)
  }

  /** When the collection honours the requested count, `search` returns at
      most `min(limit, count)` hits, and every hit's fact is a stored document. */
  lemma SearchWithinLimit(store: Store, query: string, limit: int, embedder: Embedder, chroma: Chroma)
    requires |store| > 0 && embedder(query).Returned? ==>
      var answer := chroma(store, embedder(query).value, Min(limit, |store|));
      answer.Returned? ==> Honours(answer.value, store, Min(limit, |store|))
    ensures var r := Search(store, query, limit, embedder, chroma);
      r.Returned? ==> |r.value| == 0 || |r.value| <= Min(limit, |store|)
    ensures var r := Search(store, query, limit, embedder, chroma);
      r.Returned? ==> FactsStored(r.value, store)
  {
  }

  /** With nothing stored, `search` gives the same answer whichever embedder
      and collection it is handed, failing ones included: nothing is called. */
  lemma SearchEmptyCallsNothing(query: string, limit: int, e1: Embedder, e2: Embedder, c1: Chroma, c2: Chroma)
    ensures Search([], query, limit, e1, c1) == Search([], query, limit, e2, c2) == Returned([])
  {
  }

  /** After a successful `add`, `get_all` lists the old memories followed by
      the new fact with its merged metadata. */
  lemma AddThenGetAll(store: Store, input: string, metadata: Metadata,
                      extractor: Completer, embedder: Embedder, freshId: string)
    ensures var r := Add(store, input, metadata, extractor, embedder, freshId);
      r.Returned? ==> GetAll(r.value.store) == GetAll(store) + [Memo(r.value.fact, StoredMetadata(metadata, input))]
  {
    var r := Add(store, input, metadata, extractor, embedder, freshId);
    if r.Returned? {
      var added := r.value;
      var lhs := GetAll(added.store);
      var rhs := GetAll(store) + [Memo(added.fact, StoredMetadata(metadata, input))];
      assert |lhs| == |rhs|;
      forall i | 0 <= i < |lhs|
        ensures lhs[i] == rhs[i]
      {
        if i < |store| {
          assert added.store[i] == added.store[..|store|][i];
        }
      }
    }
  }
}
