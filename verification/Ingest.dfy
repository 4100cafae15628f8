/** What ingestion should write for one document: the records of a single big write. */
module Ingest {
  import opened Prelude
  import opened Acl
  import opened Chroma

  /** A child chunk with the chapter-local id and the text of its parent block. */
  datatype Child = Child(text: string, parentKey: string, parentText: string)

  /** One chapter and what the splitter makes of it. */
  datatype Chapter = Chapter(title: string, text: string, children: seq<Child>)

  datatype Piece = Piece(chapter: nat, title: string, child: Child)

  function ChapterPieces(number: nat, chapter: Chapter): (r: seq<Piece>)
    ensures |r| == |chapter.children|
  {
    seq(|chapter.children|, k requires 0 <= k < |chapter.children| => Piece(number, chapter.title, chapter.children[k]))
  }

  /** All chunks of the document in order; blank chapters contribute none. */
  function Pieces(chapters: seq<Chapter>): seq<Piece>
    decreases |chapters|
  {
    if chapters == [] then []
    else
      var last := |chapters| - 1;
      var front := Pieces(chapters[..last]);
      if Blank(chapters[last].text) then front else front + ChapterPieces(last, chapters[last])
  }

  type ParentKey = (nat, string)

  /** A parent block is identified by its chapter and its id within the chapter. */
  function Keys(pieces: seq<Piece>): (r: seq<ParentKey>)
    ensures |r| == |pieces|
  {
    seq(|pieces|, k requires 0 <= k < |pieces| => (pieces[k].chapter, pieces[k].child.parentKey))
  }

  /** The file-wide number of the parent block of chunk `k`: blocks count in order of appearance. */
  function ParentNumber(keys: seq<ParentKey>, k: nat): nat
    requires k < |keys|
  {
    DistinctKeepsAll(keys);
    IndexOf(Distinct(keys), keys[k])
  }

  datatype Job = Job(file: Source, content: string, revision: nat, governed: SourceMetadata)

  function FileId(job: Job): Digest { Sha256([job.file, job.content]) }

  function ContentHash(content: string): Digest { Sha256([content]) }

  function PlanMeta(job: Job, pieces: seq<Piece>, k: nat): ChunkMeta
    requires k < |pieces|
  {
    ChunkMeta(job.file, job.revision, ContentHash(job.content), pieces[k].title,
      ParentId(FileId(job), ParentNumber(Keys(pieces), k)), pieces[k].child.parentText, k, job.governed, Staging)
  }

  function Plan(job: Job, chapters: seq<Chapter>): (r: seq<Record>)
    ensures |r| == |Pieces(chapters)|
  {
    var pieces := Pieces(chapters);
    seq(|pieces|, k requires 0 <= k < |pieces| => Record(pieces[k].child.text, PlanMeta(job, pieces, k)))
  }

  /** Two chunks of a file share a parent id exactly when they lie in the same chapter and
      have the same parent block there: renumbering never merges blocks of two chapters. */
  lemma ParentsAreSeparate(job: Job, chapters: seq<Chapter>, i: nat, j: nat)
    requires i < |Pieces(chapters)| && j < |Pieces(chapters)|
    ensures Plan(job, chapters)[i].meta.parent == Plan(job, chapters)[j].meta.parent <==>
      (Pieces(chapters)[i].chapter == Pieces(chapters)[j].chapter &&
       Pieces(chapters)[i].child.parentKey == Pieces(chapters)[j].child.parentKey)
  {
    var keys := Keys(Pieces(chapters));
    DistinctKeepsAll(keys);
    var a, b := ParentNumber(keys, i), ParentNumber(keys, j);
    assert Distinct(keys)[a] == keys[i] && Distinct(keys)[b] == keys[j];
  }

  /** Chunks of different files, or of different contents, never share a parent id. */
  lemma ParentsOfFilesAreSeparate(job: Job, chapters: seq<Chapter>, i: nat, other: Job, others: seq<Chapter>, j: nat)
    requires i < |Pieces(chapters)| && j < |Pieces(others)|
    requires job.file != other.file || job.content != other.content
    ensures Plan(job, chapters)[i].meta.parent != Plan(other, others)[j].meta.parent
  {
    assert [job.file, job.content][0] == job.file && [job.file, job.content][1] == job.content;
    assert [other.file, other.content][0] == other.file && [other.file, other.content][1] == other.content;
  }

  // ---- How the plan grows chunk by chunk ----

  lemma {:induction false} DistinctGrows<T>(s: seq<T>, n: nat)
    requires n <= |s|
    ensures Distinct(s[..n]) <= Distinct(s)
    decreases |s|
  {
    if n < |s| {
      var front := s[..|s| - 1];
      assert front[..n] == s[..n];
      DistinctGrows(front, n);
    } else {
      assert s[..n] == s;
    }
  }

  /** Numbers given so far stay valid as more chunks arrive. */
  lemma ParentNumberIsStable(keys: seq<ParentKey>, n: nat, k: nat)
    requires k < n <= |keys|
    ensures ParentNumber(keys[..n], k) == ParentNumber(keys, k)
  {
    DistinctGrows(keys, n);
    DistinctKeepsAll(keys[..n]);
    DistinctKeepsAll(keys);
    var d := Distinct(keys[..n]);
    var rest := Distinct(keys)[|d|..];
    assert Distinct(keys) == d + rest;
    assert keys[..n][k] == keys[k];
    IndexOfPrefix(d, rest, keys[k]);
  }

  /** The next chunk takes the number of its block, or the next free number. */
  lemma NextParentNumber(keys: seq<ParentKey>, k: nat)
    requires k < |keys|
    ensures var d := Distinct(keys[..k]);
      && Distinct(keys[..k + 1]) == (if keys[k] in d then d else d + [keys[k]])
      && ParentNumber(keys, k) == (if keys[k] in d then IndexOf(d, keys[k]) else |d|)
  {
    var d := Distinct(keys[..k]);
    assert keys[..k + 1] == keys[..k] + [keys[k]];
    DistinctOfMore(keys[..k], keys[k]);
    DistinctKeepsAll(keys[..k]);
    ParentNumberIsStable(keys, k + 1, k);
    assert keys[..k + 1][k] == keys[k];
    if keys[k] !in d {
      var e := d + [keys[k]];
      assert e[|d|] == keys[k];
      assert forall j :: 0 <= j < |d| ==> e[j] != keys[k];
    }
  }

  lemma {:induction false} PiecesOfPrefix(chapters: seq<Chapter>, n: nat)
    requires n <= |chapters|
    ensures Pieces(chapters[..n]) <= Pieces(chapters)
    decreases |chapters|
  {
    if n == |chapters| {
      assert chapters[..n] == chapters;
    } else {
      var front := chapters[..|chapters| - 1];
      assert front[..n] == chapters[..n];
      PiecesOfPrefix(front, n);
      LastChapterAppends(chapters);
    }
  }

  lemma LastChapterAppends(chapters: seq<Chapter>)
    requires chapters != []
    ensures Pieces(chapters[..|chapters| - 1]) <= Pieces(chapters)
  {
  }

  lemma {:induction false} ChapterNumbers(chapters: seq<Chapter>)
    ensures forall k :: 0 <= k < |Pieces(chapters)| ==> Pieces(chapters)[k].chapter < |chapters|
    decreases |chapters|
  {
    if chapters != [] { ChapterNumbers(chapters[..|chapters| - 1]); }
  }
}
