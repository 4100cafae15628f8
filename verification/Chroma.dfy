/** The physical store.  Chroma keeps chunks by id and knows nothing about which
    revision of a source is current.  Every call may fail, and a failing or even a
    successful write may have been carried out for only some of the ids. */
module Chroma {
  import opened Prelude
  import opened Acl

  type Source = string

  /** SHA-256, taken to be free of collisions: a digest is its preimage. */
  datatype Digest = Sha256(preimage: seq<string>)

  /** `{revision}_{index}`; a revision is a fresh `uuid4`, drawn from a counter here. */
  datatype ChunkId = ChunkId(revision: nat, index: nat)

  /** `{file_id}_parent_{number}` */
  datatype ParentId = ParentId(file: Digest, number: nat)

  datatype IngestState = Staging | Active

  datatype ChunkMeta = ChunkMeta(
    source: Source,
    revision: nat,
    contentHash: Digest,
    chapter: string,
    parent: ParentId,
    parentText: string,
    chunkIndex: nat,
    governed: SourceMetadata,
    state: IngestState)

  datatype Record = Record(document: string, meta: ChunkMeta)

  type Store = map<ChunkId, Record>

  /** The `where` filters in use. */
  datatype Where = Everything | RevisionIn(revisions: set<nat>) | SourceIs(source: Source)

  predicate Matches(meta: ChunkMeta, where_: Where) {
    match where_
    case Everything => true
    case RevisionIn(revisions) => meta.revision in revisions
    case SourceIs(source) => meta.source == source
  }

  function Select(store: Store, where_: Where): Store {
    map id | id in store && Matches(store[id].meta, where_) :: store[id]
  }

  /** `ids` lists the chunks of `found`, each once, in some order. */
  ghost predicate Enumerates(ids: seq<ChunkId>, found: Store) {
    && NoDup(ids)
    && (forall id :: id in ids <==> id in found)
  }

  class Collection {
    var physical: Store
    /** When set, no call of this run fails: the fault-free runs that the happy path is about. */
    const reliable: bool

    constructor (reliable: bool)
      ensures physical == map[] && this.reliable == reliable
    {
      this.reliable := reliable;
      physical := map[];
    }

    /** Whether some other call (a read of the manifest, an embedding, a parse) succeeds. */
    method Succeeds() returns (ok: bool)
      ensures reliable ==> ok
    {
      ok := *;
      ok := ok || reliable;
    }

    /** Write some of the records; ids that exist already are silently left alone.
        Even a call that reports success may have dropped some of them. */
    method Add(ids: seq<ChunkId>, records: seq<Record>) returns (ok: bool)
      requires |ids| == |records|
      modifies this
      ensures forall id :: id in old(physical) ==> id in physical && physical[id] == old(physical)[id]
      ensures forall id :: id in physical && id !in old(physical) ==>
        exists k :: 0 <= k < |ids| && ids[k] == id && physical[id] == records[k]
      ensures reliable ==> ok && forall k :: 0 <= k < |ids| ==> ids[k] in physical
    {
      for i := 0 to |ids|
        invariant forall id :: id in old(physical) ==> id in physical && physical[id] == old(physical)[id]
        invariant forall id :: id in physical && id !in old(physical) ==>
          exists k :: 0 <= k < i && ids[k] == id && physical[id] == records[k]
        invariant reliable ==> forall k :: 0 <= k < i ==> ids[k] in physical
      {
        var written: bool := *;
        if (written || reliable) && ids[i] !in physical {
          physical := physical[ids[i] := records[i]];
        }
      }
      ok := Succeeds();
    }

    /** Remove the ids; a failing call may have removed any part of them. */
    method Delete(ids: seq<ChunkId>) returns (ok: bool)
      modifies this
      ensures forall id :: id in physical ==> id in old(physical) && physical[id] == old(physical)[id]
      ensures forall id :: id in old(physical) && id !in ids ==> id in physical
      ensures ok ==> forall id :: id in ids ==> id !in physical
      ensures reliable ==> ok
    {
      var removed: set<ChunkId> := *;
      ok := Succeeds();
      if ok {
        removed := set id | id in ids;
      }
      physical := map id | id in physical && !(id in ids && id in removed) :: physical[id];
    }

    /** Set the auxiliary ingest label to `Active`; a failing call may have done so for some. */
    method MarkActive(ids: seq<ChunkId>) returns (ok: bool)
      modifies this
      ensures physical.Keys == old(physical).Keys
      ensures forall id :: id in physical ==>
        physical[id] == old(physical)[id] || physical[id] == WithState(old(physical)[id], Active)
      ensures forall id :: id in physical && id !in ids ==> physical[id] == old(physical)[id]
      ensures ok ==> forall id :: id in ids && id in physical ==> physical[id] == WithState(old(physical)[id], Active)
      ensures reliable ==> ok
    {
      ok := Succeeds();
      var marked: set<ChunkId> := *;
      if ok {
        marked := set id | id in ids;
      }
      physical := map id | id in physical ::
        if id in ids && id in marked then WithState(physical[id], Active) else physical[id];
    }

    /** Read the ids of all chunks that match, in an arbitrary order. */
    method Get(where_: Where) returns (ok: bool, ids: seq<ChunkId>)
      ensures ok ==> Enumerates(ids, Select(physical, where_))
      ensures reliable ==> ok
    {
      var found := Select(physical, where_);
      var rest := found.Keys;
      ids := [];
      while rest != {}
        invariant NoDup(ids)
        invariant forall id :: id in ids ==> id !in rest
        invariant forall id :: id in found <==> id in ids || id in rest
        decreases |rest|
      {
        var id :| id in rest;
        ids := ids + [id];
        rest := rest - {id};
      }
      ok := Succeeds();
    }
  }

  function WithState(r: Record, state: IngestState): Record {
    r.(meta := r.meta.(state := state))
  }
}
