/** The blog collection, held in memory: the documents in store order. */
module BlogStore {
  import opened ObjectIds
  import opened BlogModel

  function Ids(docs: seq<Blog>): set<ObjectId> {
    set i | 0 <= i < |docs| :: docs[i].id
  }

  /** No two documents share an identifier. */
  predicate DistinctIds(docs: seq<Blog>) {
    forall i, j :: 0 <= i < j < |docs| ==> docs[i].id != docs[j].id
  }

  /** Find-by-id-and-remove: drops the first document with identifier `id`,
      if there is one. */
  function RemoveId(docs: seq<Blog>, id: ObjectId): (r: seq<Blog>)
    ensures |r| <= |docs|
    ensures forall b :: b in r ==> b in docs
  {
    if docs == [] then []
    else if docs[0].id == id then docs[1..]
    else [docs[0]] + RemoveId(docs[1..], id)
  }

  lemma IdsCons(docs: seq<Blog>)
    requires docs != []
    ensures Ids(docs) == {docs[0].id} + Ids(docs[1..])
  {
  }

  lemma DistinctCons(docs: seq<Blog>)
    requires docs != []
    ensures DistinctIds(docs) <==> docs[0].id !in Ids(docs[1..]) && DistinctIds(docs[1..])
  {
  }

  /** Removing an identifier that is not stored changes nothing. */
  lemma {:induction false} RemoveAbsent(docs: seq<Blog>, id: ObjectId)
    requires id !in Ids(docs)
    ensures RemoveId(docs, id) == docs
  {
    if docs != [] {
      IdsCons(docs);
      RemoveAbsent(docs[1..], id);
    }
  }

  /** Removing the identifier of a stored document takes out exactly that
      document: what was before it and what was after it stay, in order. */
  lemma {:induction false} RemoveSplice(before: seq<Blog>, b: Blog, after: seq<Blog>)
    requires b.id !in Ids(before)
    ensures RemoveId(before + [b] + after, b.id) == before + after
  {
    if before == [] {
      assert before + [b] + after == [b] + after;
    } else {
      IdsCons(before);
      assert (before + [b] + after)[1..] == before[1..] + [b] + after;
      RemoveSplice(before[1..], b, after);
      assert before + after == [before[0]] + (before[1..] + after);
    }
  }

  /** With distinct identifiers, removing a stored one shortens the
      collection by one, leaves no document with that identifier, keeps
      the identifiers distinct and keeps every other document. */
  lemma {:induction false} RemovePresent(docs: seq<Blog>, id: ObjectId)
    requires DistinctIds(docs) && id in Ids(docs)
    ensures |RemoveId(docs, id)| == |docs| - 1
    ensures Ids(RemoveId(docs, id)) == Ids(docs) - {id}
    ensures DistinctIds(RemoveId(docs, id))
    ensures forall b :: b in docs && b.id != id ==> b in RemoveId(docs, id)
  {
    IdsCons(docs);
    DistinctCons(docs);
    var r := RemoveId(docs, id);
    if docs[0].id != id {
      var tail := RemoveId(docs[1..], id);
      RemovePresent(docs[1..], id);
      assert r == [docs[0]] + tail;
      IdsCons(r);
      DistinctCons(r);
      assert r[1..] == tail;
    }
  }

  /** A second removal of the same identifier changes nothing. */
  lemma RemoveIdempotent(docs: seq<Blog>, id: ObjectId)
    requires DistinctIds(docs)
    ensures RemoveId(RemoveId(docs, id), id) == RemoveId(docs, id)
  {
    if id in Ids(docs) {
      RemovePresent(docs, id);
      RemoveAbsent(RemoveId(docs, id), id);
    } else {
      RemoveAbsent(docs, id);
    }
  }

  /** Removing the identifier of a document just appended restores the
      collection as it was. */
  lemma RemoveUndoesAppend(docs: seq<Blog>, b: Blog)
    requires b.id !in Ids(docs)
    ensures RemoveId(docs + [b], b.id) == docs
  {
    RemoveSplice(docs, b, []);
    assert docs + [b] + [] == docs + [b];
    assert docs + [] == docs;
  }

  /** The collection itself. */
  class Collection {
    var docs: seq<Blog>

    ghost predicate Valid()
      reads this
    {
      DistinctIds(docs)
    }

    constructor ()
      ensures Valid() && docs == []
    {
      docs := [];
    }

    /** Saves a new document under an identifier not yet in use. */
    method Insert(b: Blog)
      requires Valid() && b.id !in Ids(docs)
      modifies this
      ensures Valid()
      ensures docs == old(docs) + [b]
      ensures Ids(docs) == old(Ids(docs)) + {b.id}
    {
      docs := docs + [b];
      assert forall i :: 0 <= i < |old(docs)| ==> docs[i] == old(docs)[i];
      assert Ids(docs) == Ids(old(docs)) + {b.id} by {
        forall x | x in Ids(docs) ensures x in Ids(old(docs)) + {b.id} {
          var i :| 0 <= i < |docs| && docs[i].id == x;
          if i < |old(docs)| { assert old(docs)[i].id == x; }
        }
        forall x | x in Ids(old(docs)) ensures x in Ids(docs) {
          var i :| 0 <= i < |old(docs)| && old(docs)[i].id == x;
          assert docs[i].id == x;
        }
        assert docs[|docs| - 1].id == b.id;
      }
    }

    /** Removes the document with identifier `id`, if there is one. */
    method RemoveById(id: ObjectId)
      requires Valid()
      modifies this
      ensures Valid()
      ensures docs == RemoveId(old(docs), id)
      ensures id in old(Ids(docs)) ==> |docs| == |old(docs)| - 1 && Ids(docs) == old(Ids(docs)) - {id}
      ensures id !in old(Ids(docs)) ==> docs == old(docs)
    {
      if id in Ids(docs) {
        RemovePresent(docs, id);
      } else {
        RemoveAbsent(docs, id);
      }
      docs := RemoveId(docs, id);
    }
  }
}
