/**
 * The persisted Chroma collection as the pipeline sees it: a keyed set of
 * (id, embedding, document text, metadata) entries, reached only through
 * get, delete, add and count. Nearest-neighbour search is not modelled here;
 * its answers reach the rest of the model as retrieval results.
 */
module VectorStore {
  import opened Sequences

  /** Chunk metadata: a flat dictionary with string keys and values. */
  type Metadata = map<string, string>

  /** metadata.get(key, default) */
  function Get(m: Metadata, key: string, default: string): string {
    if key in m then m[key] else default
  }

  /** An embedding vector, as returned by the embedding service. */
  type Embedding = seq<real>

  datatype Entry = Entry(document: string, metadata: Metadata, embedding: Embedding)

  class Collection {
    var entries: map<string, Entry>

    /** The collection as found in the store, possibly holding entries of an earlier run. */
    constructor (entries: map<string, Entry>)
      ensures this.entries == entries
    {
      this.entries := entries;
    }

    /** collection.get()["ids"]: every stored id exactly once. */
    method GetIds() returns (ids: seq<string>)
      ensures Distinct(ids)
      ensures forall id :: id in ids <==> id in entries
    {
      ids := [];
      var rest := entries.Keys;
      while rest != {}
        invariant rest <= entries.Keys
        invariant forall id :: id in entries <==> id in rest || id in ids
        invariant forall id :: id in rest ==> id !in ids
        invariant Distinct(ids)
        decreases |rest|
      {
        var id :| id in rest;
        ids := ids + [id];
        rest := rest - {id};
      }
    }

    /** collection.delete(ids=ids) */
    method Delete(ids: seq<string>)
      modifies this
      ensures entries == old(entries) - (set id | id in ids)
    {
      entries := entries - (set id | id in ids);
    }

    /** collection.add(embeddings=..., documents=..., metadatas=..., ids=...):
        entry j is stored under ids[j]; everything stored before is kept. */
    method Add(embeddings: seq<Embedding>, documents: seq<string>, metadatas: seq<Metadata>, ids: seq<string>)
      requires |embeddings| == |documents| == |metadatas| == |ids|
      requires Distinct(ids)
      requires forall j :: 0 <= j < |ids| ==> ids[j] !in entries
      modifies this
      ensures entries.Keys == old(entries).Keys + (set id | id in ids)
      ensures forall j :: 0 <= j < |ids| ==> entries[ids[j]] == Entry(documents[j], metadatas[j], embeddings[j])
      ensures forall id :: id in old(entries) ==> entries[id] == old(entries)[id]
    {
      var batch := map j | 0 <= j < |ids| :: ids[j] := Entry(documents[j], metadatas[j], embeddings[j]);
      entries := entries + batch;
    }
  }
}
