/** `print_patch` and `process_patch`: decide whether a finished patch
    matches the search string and produce what is written for it. Both only
    read the patch; what they write is returned as the sequence of strings
    handed to the writer, in order. */
module Engine {
  import opened Util
  import opened ParseArgs
  import opened Patch

  // ---------------------------------------------------------------------
  // print_patch

  function PrintLines(enabled: bool, chunk: Chunk): seq<string> {
    if enabled then chunk.lines else []
  }

  /** The loop over a hunk's diff blocks. */
  function PrintDiffs(sections: PatchSections, diffs: seq<HunkDiffWithTail>): seq<string>
    decreases |diffs|
  {
    if diffs == [] then []
    else
      PrintLines(sections.diff, diffs[0].diff) + PrintLines(sections.context, diffs[0].context_tail)
        + PrintDiffs(sections, diffs[1..])
  }

  /** The loop over a file's hunks; the header line goes with the context. */
  function PrintHunks(sections: PatchSections, hunks: seq<Hunk>): seq<string>
    decreases |hunks|
  {
    if hunks == [] then []
    else
      var hunk := hunks[0];
      (if sections.context then [hunk.header] + hunk.context_head.lines else [])
        + PrintDiffs(sections, hunk.diffs) + PrintHunks(sections, hunks[1..])
  }

  /** The loop over a patch's files. */
  function PrintFiles(sections: PatchSections, files: seq<FileDiff>): seq<string>
    decreases |files|
  {
    if files == [] then []
    else
      PrintLines(sections.file_header, files[0].file_header) + PrintHunks(sections, files[0].hunks)
        + PrintFiles(sections, files[1..])
  }

  /** The `Sections` arm of `print_patch`. */
  function PrintSections(sections: PatchSections, p: Patch): seq<string> {
    PrintLines(sections.patch_header, p.patch_header) + PrintFiles(sections, p.files)
  }

  /** The `CommitHash` arm of `print_patch`: the colour-stripped first
      header line without its `commit ` prefix, terminator kept. Indexing
      an empty header and a missing prefix both panic. */
  function CommitHashOf(strip: string -> string, p: Patch): (r: Result<seq<string>, Fatal>)
    ensures r.Err? <==>
      |p.patch_header.lines| == 0 || !StartsWith(strip(p.patch_header.lines[0]), "commit ")
    ensures r.Ok? ==> |r.value| == 1 && strip(p.patch_header.lines[0]) == "commit " + r.value[0]
  {
    if |p.patch_header.lines| == 0 then Err(EmptyPatchHeader)
    else
      var commitLine := strip(p.patch_header.lines[0]);
      if StartsWith(commitLine, "commit ") then
        assert commitLine == commitLine[..7] + commitLine[7..];
        Ok([commitLine[7..]])
      else Err(InvalidCommitLine)
  }

  /** `print_patch` */
  function PrintPatch(output: OutputConfig, strip: string -> string, p: Patch): (r: Result<seq<string>, Fatal>)
    ensures output.Sections? ==> r == Ok(Select(output.sections, Document(p)))
    ensures output.CommitHash? && r.Ok? ==> |r.value| == 1
  {
    match output
    case CommitHash => CommitHashOf(strip, p)
    case Sections(sections) =>
      PrintSectionsIsSelection(sections, p);
      Ok(PrintSections(sections, p))
  }

  // ---------------------------------------------------------------------
  // process_patch

  /** The `process_lines` closure: some line contains the pattern. */
  predicate LinesMatch(lines: seq<string>, pattern: string)
    decreases |lines|
  {
    lines != [] && (Contains(lines[0], pattern) || LinesMatch(lines[1..], pattern))
  }

  predicate DiffsMatch(matchOn: PatchSections, diffs: seq<HunkDiffWithTail>, pattern: string)
    decreases |diffs|
  {
    diffs != [] &&
    ((matchOn.diff && LinesMatch(diffs[0].diff.lines, pattern))
     || (matchOn.context && LinesMatch(diffs[0].context_tail.lines, pattern))
     || DiffsMatch(matchOn, diffs[1..], pattern))
  }

  predicate HunksMatch(matchOn: PatchSections, hunks: seq<Hunk>, pattern: string)
    decreases |hunks|
  {
    hunks != [] &&
    ((matchOn.context && Contains(hunks[0].header, pattern))
     || (matchOn.context && LinesMatch(hunks[0].context_head.lines, pattern))
     || DiffsMatch(matchOn, hunks[0].diffs, pattern)
     || HunksMatch(matchOn, hunks[1..], pattern))
  }

  predicate FilesMatch(matchOn: PatchSections, files: seq<FileDiff>, pattern: string)
    decreases |files|
  {
    files != [] &&
    ((matchOn.file_header && LinesMatch(files[0].file_header.lines, pattern))
     || HunksMatch(matchOn, files[0].hunks, pattern)
     || FilesMatch(matchOn, files[1..], pattern))
  }

  /** The scan of `process_patch`, in its order, stopping at the first hit. */
  predicate PatchMatches(matchOn: PatchSections, p: Patch, pattern: string) {
    (matchOn.patch_header && LinesMatch(p.patch_header.lines, pattern))
    || FilesMatch(matchOn, p.files, pattern)
  }

  /** `process_patch`: print the patch once if the scan finds the search
      string, otherwise write nothing. */
  function ProcessPatch(config: Config, strip: string -> string, p: Patch): (r: Result<seq<string>, Fatal>)
    ensures r.Err? ==> config.output.CommitHash?
    ensures r.Ok? && r.value != [] ==> AnyContains(Select(config.match_on, Document(p)), config.search_string)
  {
    PatchMatchesIsSearch(config.match_on, p, config.search_string);
    if PatchMatches(config.match_on, p, config.search_string) then PrintPatch(config.output, strip, p)
    else Ok([])
  }

  // ---------------------------------------------------------------------
  // Printing is selection from the document

  lemma {:induction false} PrintDiffsIsSelection(sections: PatchSections, diffs: seq<HunkDiffWithTail>)
    ensures PrintDiffs(sections, diffs) == Select(sections, FlatMap(diffs, DiffDoc))
    decreases |diffs|
  {
    if diffs != [] {
      var d := diffs[0];
      PrintDiffsIsSelection(sections, diffs[1..]);
      SelectAppend(sections, DiffDoc(d), FlatMap(diffs[1..], DiffDoc));
      SelectAppend(sections, Tag(DiffSection, d.diff.lines), Tag(ContextSection, d.context_tail.lines));
      SelectTag(sections, DiffSection, d.diff.lines);
      SelectTag(sections, ContextSection, d.context_tail.lines);
    }
  }

  lemma {:induction false} PrintHunksIsSelection(sections: PatchSections, hunks: seq<Hunk>)
    ensures PrintHunks(sections, hunks) == Select(sections, FlatMap(hunks, HunkDoc))
    decreases |hunks|
  {
    if hunks != [] {
      var h := hunks[0];
      var head := [TaggedLine(ContextSection, h.header)] + Tag(ContextSection, h.context_head.lines);
      PrintHunksIsSelection(sections, hunks[1..]);
      PrintDiffsIsSelection(sections, h.diffs);
      SelectAppend(sections, HunkDoc(h), FlatMap(hunks[1..], HunkDoc));
      SelectAppend(sections, head, FlatMap(h.diffs, DiffDoc));
      SelectAppend(sections, [TaggedLine(ContextSection, h.header)], Tag(ContextSection, h.context_head.lines));
      SelectTag(sections, ContextSection, h.context_head.lines);
      assert Select(sections, [TaggedLine(ContextSection, h.header)])
          == (if sections.context then [h.header] else []) + Select(sections, []);
    }
  }

  lemma {:induction false} PrintFilesIsSelection(sections: PatchSections, files: seq<FileDiff>)
    ensures PrintFiles(sections, files) == Select(sections, FlatMap(files, FileDoc))
    decreases |files|
  {
    if files != [] {
      var f := files[0];
      PrintFilesIsSelection(sections, files[1..]);
      PrintHunksIsSelection(sections, f.hunks);
      SelectAppend(sections, FileDoc(f), FlatMap(files[1..], FileDoc));
      SelectAppend(sections, Tag(FileHeaderSection, f.file_header.lines), FlatMap(f.hunks, HunkDoc));
      SelectTag(sections, FileHeaderSection, f.file_header.lines);
    }
  }

  /** Sections mode writes exactly the lines of the enabled sections, in
      document order; the hunk header counts as context. */
  lemma PrintSectionsIsSelection(sections: PatchSections, p: Patch)
    ensures PrintSections(sections, p) == Select(sections, Document(p))
  {
    PrintFilesIsSelection(sections, p.files);
    SelectAppend(sections, Tag(PatchHeaderSection, p.patch_header.lines), FlatMap(p.files, FileDoc));
    SelectTag(sections, PatchHeaderSection, p.patch_header.lines);
  }

  // ---------------------------------------------------------------------
  // Matching is a search of the selected lines

  lemma {:induction false} LinesMatchIsAnyContains(lines: seq<string>, pattern: string)
    ensures LinesMatch(lines, pattern) <==> AnyContains(lines, pattern)
    decreases |lines|
  {
    if lines != [] {
      LinesMatchIsAnyContains(lines[1..], pattern);
      assert lines == [lines[0]] + lines[1..];
      AnyContainsAppend([lines[0]], lines[1..], pattern);
      assert AnyContains([lines[0]], pattern) <==> Contains(lines[0], pattern) by {
        if Contains(lines[0], pattern) {
          assert [lines[0]][0] == lines[0];
        }
      }
    }
  }

  /** A chunk gated by a switch matches iff its selection does. */
  lemma ChunkMatch(enabled: bool, section: Section, sections: PatchSections, lines: seq<string>, pattern: string)
    requires enabled == Enabled(sections, section)
    ensures (enabled && LinesMatch(lines, pattern)) <==> AnyContains(Select(sections, Tag(section, lines)), pattern)
  {
    SelectTag(sections, section, lines);
    LinesMatchIsAnyContains(lines, pattern);
  }

  lemma {:induction false} DiffsMatchIsSearch(m: PatchSections, diffs: seq<HunkDiffWithTail>, pattern: string)
    ensures DiffsMatch(m, diffs, pattern) <==> AnyContains(Select(m, FlatMap(diffs, DiffDoc)), pattern)
    decreases |diffs|
  {
    if diffs != [] {
      var d := diffs[0];
      DiffsMatchIsSearch(m, diffs[1..], pattern);
      ChunkMatch(m.diff, DiffSection, m, d.diff.lines, pattern);
      ChunkMatch(m.context, ContextSection, m, d.context_tail.lines, pattern);
      SelectAppend(m, DiffDoc(d), FlatMap(diffs[1..], DiffDoc));
      SelectAppend(m, Tag(DiffSection, d.diff.lines), Tag(ContextSection, d.context_tail.lines));
      AnyContainsAppend(Select(m, DiffDoc(d)), Select(m, FlatMap(diffs[1..], DiffDoc)), pattern);
      AnyContainsAppend(Select(m, Tag(DiffSection, d.diff.lines)),
                        Select(m, Tag(ContextSection, d.context_tail.lines)), pattern);
    } else {
      assert Select(m, FlatMap(diffs, DiffDoc)) == [];
    }
  }

  lemma {:induction false} HunksMatchIsSearch(m: PatchSections, hunks: seq<Hunk>, pattern: string)
    ensures HunksMatch(m, hunks, pattern) <==> AnyContains(Select(m, FlatMap(hunks, HunkDoc)), pattern)
    decreases |hunks|
  {
    if hunks != [] {
      var h := hunks[0];
      var header := [TaggedLine(ContextSection, h.header)];
      var head := header + Tag(ContextSection, h.context_head.lines);
      HunksMatchIsSearch(m, hunks[1..], pattern);
      DiffsMatchIsSearch(m, h.diffs, pattern);
      ChunkMatch(m.context, ContextSection, m, [h.header], pattern);
      ChunkMatch(m.context, ContextSection, m, h.context_head.lines, pattern);
      assert Tag(ContextSection, [h.header]) == header + Tag(ContextSection, []);
      assert LinesMatch([h.header], pattern) == Contains(h.header, pattern);
      SelectAppend(m, HunkDoc(h), FlatMap(hunks[1..], HunkDoc));
      SelectAppend(m, head, FlatMap(h.diffs, DiffDoc));
      SelectAppend(m, header, Tag(ContextSection, h.context_head.lines));
      AnyContainsAppend(Select(m, HunkDoc(h)), Select(m, FlatMap(hunks[1..], HunkDoc)), pattern);
      AnyContainsAppend(Select(m, head), Select(m, FlatMap(h.diffs, DiffDoc)), pattern);
      AnyContainsAppend(Select(m, header), Select(m, Tag(ContextSection, h.context_head.lines)), pattern);
    } else {
      assert Select(m, FlatMap(hunks, HunkDoc)) == [];
    }
  }

  lemma {:induction false} FilesMatchIsSearch(m: PatchSections, files: seq<FileDiff>, pattern: string)
    ensures FilesMatch(m, files, pattern) <==> AnyContains(Select(m, FlatMap(files, FileDoc)), pattern)
    decreases |files|
  {
    if files != [] {
      var f := files[0];
      FilesMatchIsSearch(m, files[1..], pattern);
      HunksMatchIsSearch(m, f.hunks, pattern);
      ChunkMatch(m.file_header, FileHeaderSection, m, f.file_header.lines, pattern);
      SelectAppend(m, FileDoc(f), FlatMap(files[1..], FileDoc));
      SelectAppend(m, Tag(FileHeaderSection, f.file_header.lines), FlatMap(f.hunks, HunkDoc));
      AnyContainsAppend(Select(m, FileDoc(f)), Select(m, FlatMap(files[1..], FileDoc)), pattern);
      AnyContainsAppend(Select(m, Tag(FileHeaderSection, f.file_header.lines)),
                        Select(m, FlatMap(f.hunks, HunkDoc)), pattern);
    } else {
      assert Select(m, FlatMap(files, FileDoc)) == [];
    }
  }

  /** The scan finds the search string iff some line of a section enabled
      for matching contains it. */
  lemma PatchMatchesIsSearch(m: PatchSections, p: Patch, pattern: string)
    ensures PatchMatches(m, p, pattern) <==> AnyContains(Select(m, Document(p)), pattern)
  {
    FilesMatchIsSearch(m, p.files, pattern);
    ChunkMatch(m.patch_header, PatchHeaderSection, m, p.patch_header.lines, pattern);
    SelectAppend(m, Tag(PatchHeaderSection, p.patch_header.lines), FlatMap(p.files, FileDoc));
    AnyContainsAppend(Select(m, Tag(PatchHeaderSection, p.patch_header.lines)),
                      Select(m, FlatMap(p.files, FileDoc)), pattern);
  }

  /** `process_patch` writes the configured output of the whole patch,
      once, iff some line in a section enabled for matching contains the
      search string; otherwise it writes nothing. */
  lemma ProcessPatchSpec(config: Config, strip: string -> string, p: Patch)
    ensures var hit := AnyContains(Select(config.match_on, Document(p)), config.search_string);
      && (hit ==> ProcessPatch(config, strip, p) == PrintPatch(config.output, strip, p))
      && (!hit ==> ProcessPatch(config, strip, p) == Ok([]))
    ensures config.output.Sections? && PatchMatches(config.match_on, p, config.search_string) ==>
      ProcessPatch(config, strip, p) == Ok(Select(config.output.sections, Document(p)))
  {
    PatchMatchesIsSearch(config.match_on, p, config.search_string);
    if config.output.Sections? {
      PrintSectionsIsSelection(config.output.sections, p);
    }
  }

  /** With every match section switched off nothing is ever written. */
  lemma {:induction false} NothingEnabledNeverMatches(p: Patch, config: Config, strip: string -> string)
    requires config.match_on == NoSections
    ensures ProcessPatch(config, strip, p) == Ok([])
  {
    PatchMatchesIsSearch(config.match_on, p, config.search_string);
    NoSectionSelectsNothing(Document(p));
  }

  lemma {:induction false} NoSectionSelectsNothing(doc: seq<TaggedLine>)
    ensures Select(NoSections, doc) == []
    decreases |doc|
  {
    if doc != [] {
      NoSectionSelectsNothing(doc[1..]);
    }
  }

  /** Content outside the enabled match sections never triggers output:
      if no line of an enabled section contains the search string, the
      patch writes nothing, whatever the other sections hold. */
  lemma DisabledSectionsCannotMatch(config: Config, strip: string -> string, p: Patch)
    requires forall i :: 0 <= i < |Document(p)| && Enabled(config.match_on, Document(p)[i].section)
               ==> !Contains(Document(p)[i].text, config.search_string)
    ensures ProcessPatch(config, strip, p) == Ok([])
  {
    ProcessPatchSpec(config, strip, p);
    var sel := Select(config.match_on, Document(p));
    if AnyContains(sel, config.search_string) {
      var k :| 0 <= k < |sel| && Contains(sel[k], config.search_string);
      SelectMembership(config.match_on, Document(p), sel[k]);
    }
  }

  /** The commit-hash output and the first header line round-trip:
      `commit ` followed by the written hash is that line, colour-stripped. */
  lemma CommitHashRoundTrip(config: Config, strip: string -> string, p: Patch)
    requires config.output == CommitHash
    requires ProcessPatch(config, strip, p).Ok? && ProcessPatch(config, strip, p).value != []
    ensures |p.patch_header.lines| > 0
    ensures ProcessPatch(config, strip, p).value == [strip(p.patch_header.lines[0])[7..]]
    ensures strip(p.patch_header.lines[0]) == "commit " + ProcessPatch(config, strip, p).value[0]
  {
  }
}
