/**
 The remote document store, reduced to what the pages use: two collections,
 `scores` and `groups`, each a map from document id to document, and the
 three single-document writes the admin page issues (full set, merge set,
 delete). Every write touches one document of one collection.
 */
module Store {
  import opened Values

  datatype CollectionName = Scores | Groups

  type Collection = map<string, Doc>

  datatype Db = Db(scores: Collection, groups: Collection)
  {
    function Get(c: CollectionName): Collection
    {
      match c
      case Scores => scores
      case Groups => groups
    }

    function With(c: CollectionName, coll: Collection): Db
    {
      match c
      case Scores => this.(scores := coll)
      case Groups => this.(groups := coll)
    }
  }

  /** `setDoc(ref, data)`, `setDoc(ref, data, { merge: true })` and `deleteDoc(ref)`.
      `addDoc` is a `SetDoc` at the id the client library generates. */
  datatype Write =
    | SetDoc(coll: CollectionName, id: string, data: Doc)
    | MergeDoc(coll: CollectionName, id: string, data: Doc)
    | DeleteDoc(coll: CollectionName, id: string)

  /** The store refuses a document holding an `undefined` field. */
  predicate Storable(d: Doc)
  {
    forall f :: f in d ==> !d[f].Undefined?
  }

  /** A merge write: the written fields replace, every other stored field stays;
      a merge to a missing document creates it. */
  function Merge(prior: Option<Doc>, data: Doc): (r: Doc)
    ensures r.Keys == data.Keys + (if prior.Some? then prior.value.Keys else {})
    ensures forall f :: f in data ==> r[f] == data[f]
    ensures forall f :: f !in data && prior.Some? && f in prior.value ==> r[f] == prior.value[f]
  {
    (if prior.Some? then prior.value else map[]) + data
  }

  /** The document at `id`, if there is one. */
  function Lookup(coll: Collection, id: string): Option<Doc>
  {
    if id in coll then Some(coll[id]) else None
  }

  /** The effect of one successful write. */
  function Apply(db: Db, w: Write): (r: Db)
    // the other collection is untouched
    ensures forall c :: c != w.coll ==> r.Get(c) == db.Get(c)
    // every other document of the written collection is untouched
    ensures forall k :: k != w.id ==> Lookup(r.Get(w.coll), k) == Lookup(db.Get(w.coll), k)
    ensures w.SetDoc? ==> Lookup(r.Get(w.coll), w.id) == Some(w.data)
    ensures w.MergeDoc? ==>
      Lookup(r.Get(w.coll), w.id) == Some(Merge(Lookup(db.Get(w.coll), w.id), w.data))
    ensures w.DeleteDoc? ==> Lookup(r.Get(w.coll), w.id) == None
  {
    var coll := db.Get(w.coll);
    match w
    case SetDoc(c, id, data) => db.With(c, coll[id := data])
    case MergeDoc(c, id, data) => db.With(c, coll[id := Merge(Lookup(coll, id), data)])
    case DeleteDoc(c, id) => db.With(c, coll - {id})
  }

  /** The effect of several successful writes, in issue order. */
  function ApplyAll(db: Db, ws: seq<Write>): Db
    decreases |ws|
  {
    if ws == [] then db else ApplyAll(Apply(db, ws[0]), ws[1..])
  }

  lemma ApplyAllFour(db: Db, ws: seq<Write>)
    requires |ws| == 4
    ensures ApplyAll(db, ws) == Apply(Apply(Apply(Apply(db, ws[0]), ws[1]), ws[2]), ws[3])
  {
    var d1 := Apply(db, ws[0]);
    var d2 := Apply(d1, ws[1]);
    var d3 := Apply(d2, ws[2]);
    var d4 := Apply(d3, ws[3]);
    assert ApplyAll(d4, ws[4..]) == d4 by { assert ws[4..] == []; }
    assert ApplyAll(d3, ws[3..]) == ApplyAll(d4, ws[4..]) by { assert ws[3..][1..] == ws[4..]; }
    assert ApplyAll(d2, ws[2..]) == ApplyAll(d3, ws[3..]) by { assert ws[2..][1..] == ws[3..]; }
    assert ApplyAll(d1, ws[1..]) == ApplyAll(d2, ws[2..]) by { assert ws[1..][1..] == ws[2..]; }
  }

  /** Deleting a document that is already gone changes nothing, so a
      repeated delete converges to the same store. */
  lemma DeleteIdempotent(db: Db, c: CollectionName, id: string)
    ensures Apply(Apply(db, DeleteDoc(c, id)), DeleteDoc(c, id)) == Apply(db, DeleteDoc(c, id))
    ensures id !in db.Get(c) ==> Apply(db, DeleteDoc(c, id)) == db
  {
    var once := Apply(db, DeleteDoc(c, id));
    assert once.Get(c) - {id} == once.Get(c);
    if id !in db.Get(c) {
      assert db.Get(c) - {id} == db.Get(c);
      match c
      case Scores =>
      case Groups =>
    }
  }

  /** A full set leaves exactly the written fields, whatever was stored before:
      two full sets to one id end with the second one's document. */
  lemma SetLastWriteWins(db: Db, c: CollectionName, id: string, first: Doc, second: Doc)
    ensures Apply(Apply(db, SetDoc(c, id, first)), SetDoc(c, id, second)) == Apply(db, SetDoc(c, id, second))
  {
    match c
    case Scores =>
      assert db.scores[id := first][id := second] == db.scores[id := second];
    case Groups =>
      assert db.groups[id := first][id := second] == db.groups[id := second];
  }

  // ---------------------------------------------------------------------------
  // Snapshots: what a live subscription delivers

  /** One document of a query result: its id and its stored fields. */
  datatype DocSnap = DocSnap(id: string, data: Doc)

  predicate DistinctIds(batch: seq<DocSnap>)
  {
    forall i, j :: 0 <= i < j < |batch| ==> batch[i].id != batch[j].id
  }

  /** `batch` lists every document of `coll` exactly once (in some order). */
  predicate IsSnapshotOf(batch: seq<DocSnap>, coll: Collection)
  {
    && DistinctIds(batch)
    && (forall i :: 0 <= i < |batch| ==> batch[i].id in coll && coll[batch[i].id] == batch[i].data)
    && (forall k :: k in coll ==> exists i :: 0 <= i < |batch| && batch[i].id == k)
  }

  /** A snapshot is empty exactly when its collection is. */
  lemma EmptySnapshot(batch: seq<DocSnap>, coll: Collection)
    requires IsSnapshotOf(batch, coll)
    ensures batch == [] <==> coll == map[]
  {
    if batch != [] {
      assert batch[0].id in coll;
    }
    if coll != map[] {
      var k :| k in coll;
      var i :| 0 <= i < |batch| && batch[i].id == k;
    }
  }
}
