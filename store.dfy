/**
 * The `imports` collection the data-access layer writes to, held in memory:
 * one document per import, keyed by its `_id`, whose other keys are the
 * citizens of the import. Only the four calls the layer makes are modelled.
 */
module Store {
  import opened Wrappers
  import opened Citizens

  class ImportsCollection {
    /** The documents, by `_id`, without the `_id` key itself. */
    var docs: map<int, Batch>

    constructor ()
      ensures docs == map[]
    {
      docs := map[];
    }

    /** `count_documents({})`. */
    method CountDocuments() returns (n: nat)
      ensures n == |docs|
    {
      n := |docs|;
    }

    /**
     * `insert_one(doc)`: false where the driver raises DuplicateKeyError. The
     * collection itself puts no rule on ids; keeping them 1..n is up to the
     * caller (`Dao.CitizensDao.Valid`).
     */
    method InsertOne(id: int, b: Batch) returns (ok: bool)
      modifies this
      ensures ok <==> id !in old(docs)
      ensures docs == if ok then old(docs)[id := b] else old(docs)
    {
      ok := id !in docs;
      if ok {
        docs := docs[id := b];
      }
    }

    /** `find_one({"_id": id}, {"_id": 0})`. */
    method FindOne(id: int) returns (r: Option<Batch>)
      ensures r == if id in docs then Some(docs[id]) else None
    {
      r := if id in docs then Some(docs[id]) else None;
    }

    /** `update_one({"_id": id}, {"$set": fields})`: overwrite the given citizens. */
    method UpdateOne(id: int, fields: Batch)
      modifies this
      ensures docs == if id in old(docs) then old(docs)[id := old(docs)[id] + fields] else old(docs)
      ensures docs.Keys == old(docs).Keys
    {
      if id in docs {
        docs := docs[id := docs[id] + fields];
      }
    }
  }
}
