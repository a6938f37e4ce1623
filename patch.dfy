/** The in-memory shape of one patch (a commit's header and its per-file
    unified diffs), the fatal conditions of the line processor, and the
    document-order view of a patch that printing, matching and building
    are all stated against. */
module Patch {
  import opened Util
  import opened ParseArgs

  /** Raw lines in input order, each kept exactly as read (terminator and
      colour escape codes included). */
  datatype Chunk = Chunk(lines: seq<string>)

  /** A run of added/removed lines and the context lines that follow it. */
  datatype HunkDiffWithTail = HunkDiffWithTail(diff: Chunk, context_tail: Chunk)

  datatype Hunk = Hunk(header: string, context_head: Chunk, diffs: seq<HunkDiffWithTail>)

  datatype FileDiff = FileDiff(file_header: Chunk, hunks: seq<Hunk>)

  datatype Patch = Patch(patch_header: Chunk, files: seq<FileDiff>)

  /** Everything that ends a run with a panic. */
  datatype Fatal =
    | InvalidUtf8(lineNumber: nat)
    | ExpectedCommit
    | UnknownInHunkHead
    | UnknownInHunkBody
    | UnknownInHunkTail
    | EmptyPatchHeader
    | InvalidCommitLine

  /** `chunk_from` */
  function ChunkFrom(line: string): (r: Chunk)
    ensures r.lines == [line]
  {
    Chunk([line])
  }

  /** `chunk_empty` */
  function ChunkEmpty(): (r: Chunk)
    ensures r.lines == []
  {
    Chunk([])
  }

  /** The patch `process_lines` starts with, before any line is read. */
  const EmptyPatch := Patch(ChunkEmpty(), [])

  // ---------------------------------------------------------------------
  // Document order

  /** The four sections a line can belong to; a hunk's `@@` header line
      belongs to the context section. */
  datatype Section = PatchHeaderSection | FileHeaderSection | ContextSection | DiffSection

  datatype TaggedLine = TaggedLine(section: Section, text: string)

  function Tag(section: Section, lines: seq<string>): seq<TaggedLine>
    decreases |lines|
  {
    if lines == [] then [] else [TaggedLine(section, lines[0])] + Tag(section, lines[1..])
  }

  function DiffDoc(d: HunkDiffWithTail): seq<TaggedLine> {
    Tag(DiffSection, d.diff.lines) + Tag(ContextSection, d.context_tail.lines)
  }

  function HunkDoc(h: Hunk): seq<TaggedLine> {
    [TaggedLine(ContextSection, h.header)] + Tag(ContextSection, h.context_head.lines)
      + FlatMap(h.diffs, DiffDoc)
  }

  function FileDoc(f: FileDiff): seq<TaggedLine> {
    Tag(FileHeaderSection, f.file_header.lines) + FlatMap(f.hunks, HunkDoc)
  }

  /** Every stored line of the patch with its section, in document order:
      the patch header, then per file its header, then per hunk its header
      line and leading context, then per diff block its changed lines and
      trailing context. */
  function Document(p: Patch): seq<TaggedLine> {
    Tag(PatchHeaderSection, p.patch_header.lines) + FlatMap(p.files, FileDoc)
  }

  predicate Enabled(sections: PatchSections, section: Section) {
    match section
    case PatchHeaderSection => sections.patch_header
    case FileHeaderSection => sections.file_header
    case ContextSection => sections.context
    case DiffSection => sections.diff
  }

  /** The texts of the entries whose section is switched on, in order. */
  function Select(sections: PatchSections, doc: seq<TaggedLine>): seq<string>
    decreases |doc|
  {
    if doc == [] then []
    else (if Enabled(sections, doc[0].section) then [doc[0].text] else []) + Select(sections, doc[1..])
  }

  lemma {:induction false} TagAppend(section: Section, lines: seq<string>, line: string)
    ensures Tag(section, lines + [line]) == Tag(section, lines) + [TaggedLine(section, line)]
    decreases |lines|
  {
    if lines == [] {
      assert Tag(section, [line]) == [TaggedLine(section, line)] + Tag(section, []);
    } else {
      assert (lines + [line])[1..] == lines[1..] + [line];
      TagAppend(section, lines[1..], line);
    }
  }

  lemma {:induction false} TagLength(section: Section, lines: seq<string>)
    ensures |Tag(section, lines)| == |lines|
    decreases |lines|
  {
    if lines != [] {
      TagLength(section, lines[1..]);
    }
  }

  lemma {:induction false} SelectAppend(sections: PatchSections, a: seq<TaggedLine>, b: seq<TaggedLine>)
    ensures Select(sections, a + b) == Select(sections, a) + Select(sections, b)
    decreases |a|
  {
    if a == [] {
      assert a + b == b;
    } else {
      assert (a + b)[1..] == a[1..] + b;
      SelectAppend(sections, a[1..], b);
    }
  }

  /** Selecting from one tagged chunk yields the chunk or nothing. */
  lemma {:induction false} SelectTag(sections: PatchSections, section: Section, lines: seq<string>)
    ensures Select(sections, Tag(section, lines)) == if Enabled(sections, section) then lines else []
    decreases |lines|
  {
    if lines != [] {
      SelectTag(sections, section, lines[1..]);
      assert lines == [lines[0]] + lines[1..];
    }
  }

  /** A selected text is the text of an entry in a switched-on section,
      and every such entry's text is selected. */
  lemma {:induction false} SelectMembership(sections: PatchSections, doc: seq<TaggedLine>, text: string)
    ensures text in Select(sections, doc) <==>
      exists i :: 0 <= i < |doc| && doc[i].text == text && Enabled(sections, doc[i].section)
    decreases |doc|
  {
    if doc != [] {
      SelectMembership(sections, doc[1..], text);
      if exists i :: 0 <= i < |doc| && doc[i].text == text && Enabled(sections, doc[i].section) {
        var i :| 0 <= i < |doc| && doc[i].text == text && Enabled(sections, doc[i].section);
        if i > 0 {
          assert doc[1..][i - 1] == doc[i];
        }
      }
      if text in Select(sections, doc[1..]) {
        var i :| 0 <= i < |doc[1..]| && doc[1..][i].text == text && Enabled(sections, doc[1..][i].section);
        assert doc[i + 1] == doc[1..][i];
      }
    }
  }
}
