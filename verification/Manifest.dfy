/** The SQLite manifest: it alone decides which revision of a source is current.
    Each method is one transaction. */
module Manifest {
  import opened Prelude
  import opened Acl
  import opened Chroma

  datatype SourceRow = SourceRow(revision: nat, contentHash: Digest, chunkCount: nat)

  datatype Rows = Rows(
    sources: map<Source, SourceRow>,
    metadata: map<Source, SourceMetadata>,
    generation: nat)

  function Committed(m: Rows, source: Source, row: SourceRow, metadata: SourceMetadata): Rows {
    Rows(m.sources[source := row], m.metadata[source := metadata], m.generation + 1)
  }

  function WithoutSource(m: Rows, source: Source): Rows {
    Rows(m.sources - {source}, m.metadata - {source},
         if source in m.sources then m.generation + 1 else m.generation)
  }

  function Cleared(m: Rows): Rows {
    Rows(map[], map[], if m.sources != map[] then m.generation + 1 else m.generation)
  }

  function Described(m: Rows, source: Source, metadata: SourceMetadata, bump: bool): Rows {
    var changed := source !in m.metadata || m.metadata[source] != metadata;
    m.(metadata := m.metadata[source := metadata],
       generation := if changed && bump then m.generation + 1 else m.generation)
  }

  class KnowledgeBaseManifest {
    var sources: map<Source, SourceRow>
    var metadata: map<Source, SourceMetadata>
    var generation: nat

    /** An initialised, empty manifest. */
    constructor ()
      ensures Value() == Rows(map[], map[], 0)
    {
      sources, metadata, generation := map[], map[], 0;
    }

    ghost function Value(): Rows
      reads this
    {
      Rows(sources, metadata, generation)
    }

    method Snapshot() returns (rows: Rows)
      ensures rows == Value()
    {
      rows := Rows(sources, metadata, generation);
    }

    method CommitSource(source: Source, row: SourceRow, data: SourceMetadata)
      modifies this
      ensures Value() == Committed(old(Value()), source, row, data)
    {
      sources := sources[source := row];
      metadata := metadata[source := data];
      generation := generation + 1;
    }

    method SetSourceMetadata(source: Source, data: SourceMetadata, bumpGeneration: bool) returns (changed: bool)
      modifies this
      ensures Value() == Described(old(Value()), source, data, bumpGeneration)
      ensures changed <==> source !in old(metadata) || old(metadata)[source] != data
    {
      changed := source !in metadata || metadata[source] != data;
      metadata := metadata[source := data];
      if changed && bumpGeneration {
        generation := generation + 1;
      }
    }

    method DeleteSource(source: Source) returns (changed: bool)
      modifies this
      ensures Value() == WithoutSource(old(Value()), source)
      ensures changed <==> source in old(sources)
    {
      changed := source in sources;
      sources := sources - {source};
      metadata := metadata - {source};
      if changed {
        generation := generation + 1;
      }
    }

    method Clear() returns (changed: bool)
      modifies this
      ensures Value() == Cleared(old(Value()))
      ensures changed <==> old(sources) != map[]
    {
      changed := sources != map[];
      sources := map[];
      metadata := map[];
      if changed {
        generation := generation + 1;
      }
    }
  }
}
